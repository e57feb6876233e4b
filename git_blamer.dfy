/**
 * The blame cache of VSGitBlame/GitBlamer.cs: a map from file path to
 * blame table in which a missing key means "never looked up or invalidated",
 * a null value means "a `git blame` is running for it", and a table means
 * "ready".
 *
 * The asynchronous InitialiseFileAsync is split at its await into a launch
 * step (mark pending, start the process) and a completion step that receives
 * the process's exit code and output. Interleavings of the concurrent program
 * are then sequences of calls. A ghost log records each launch, each
 * OnBlameFinished notification and each result discarded by the early return.
 *
 * The pure transition functions on `Store` are the specification; the class
 * `GitBlamer` is the stateful cache, each of whose methods is proved to move
 * its state as the matching function says.
 */
module Blamer {
  import opened Wrappers
  import opened Commits
  import opened FileBlame

  /** What the ghost log records. */
  datatype Event =
    | Launched(path: string)  // InitialiseFileAsync began: entry marked pending, process started
    | Notified(path: string)  // OnBlameFinished fired after a result was installed
    | Dropped(path: string)   // a result came back for an invalidated path and was thrown away

  /** The cache contents together with the log; None is the pending (null) entry. */
  datatype Store = Store(cache: map<string, Option<Table>>, log: seq<Event>)

  // ---------------------------------------------------------------------
  // Counting the log

  function Count(log: seq<Event>, e: Event): (n: nat)
    ensures n <= |log|
    ensures n == 0 <==> e !in log
  {
    if log == [] then 0 else (if log[0] == e then 1 else 0) + Count(log[1..], e)
  }

  lemma {:induction false} CountAppend(log: seq<Event>, x: Event, e: Event)
    ensures Count(log + [x], e) == Count(log, e) + (if x == e then 1 else 0)
  {
    if log == [] {
      assert [x][1..] == [];
    } else {
      assert (log + [x])[1..] == log[1..] + [x];
      CountAppend(log[1..], x, e);
    }
  }

  function Launches(log: seq<Event>, p: string): (n: nat) { Count(log, Launched(p)) }
  function Notifications(log: seq<Event>, p: string): (n: nat) { Count(log, Notified(p)) }
  function Drops(log: seq<Event>, p: string): (n: nat) { Count(log, Dropped(p)) }

  /** How one event moves the number of computations of `p` still running. */
  function Delta(e: Event, p: string): (d: int) {
    if e.path != p then 0 else if e.Launched? then 1 else -1
  }

  /** Computations for `p` started and not yet come back. */
  function InFlight(log: seq<Event>, p: string): (n: int) {
    if log == [] then 0 else Delta(log[0], p) + InFlight(log[1..], p)
  }

  lemma {:induction false} InFlightAppend(log: seq<Event>, x: Event, p: string)
    ensures InFlight(log + [x], p) == InFlight(log, p) + Delta(x, p)
  {
    if log == [] {
      assert [x][1..] == [];
    } else {
      assert (log + [x])[1..] == log[1..] + [x];
      InFlightAppend(log[1..], x, p);
    }
  }

  /** The running count is launches less the completions of either kind. */
  lemma {:induction false} InFlightCountsCompletions(log: seq<Event>, p: string)
    ensures InFlight(log, p) == Launches(log, p) - Notifications(log, p) - Drops(log, p)
  {
    if log != [] {
      InFlightCountsCompletions(log[1..], p);
    }
  }

  /** Appending one event moves exactly the counter it names, for its own path. */
  lemma AppendEvent(log: seq<Event>, x: Event, q: string)
    ensures Launches(log + [x], q) == Launches(log, q) + (if x == Launched(q) then 1 else 0)
    ensures Notifications(log + [x], q) == Notifications(log, q) + (if x == Notified(q) then 1 else 0)
    ensures Drops(log + [x], q) == Drops(log, q) + (if x == Dropped(q) then 1 else 0)
    ensures InFlight(log + [x], q) == InFlight(log, q) + Delta(x, q)
  {
    CountAppend(log, x, Launched(q));
    CountAppend(log, x, Notified(q));
    CountAppend(log, x, Dropped(q));
    InFlightAppend(log, x, q);
  }

  /**
   * The invariant every reachable store keeps: no path has come back more
   * often than it was launched, and a pending entry always has a computation
   * still running that will resolve it.
   */
  ghost predicate Consistent(s: Store) {
    && (forall p :: InFlight(s.log, p) >= 0)
    && (forall p :: p in s.cache && s.cache[p].None? ==> InFlight(s.log, p) >= 1)
  }

  // ---------------------------------------------------------------------
  // The transitions (GitBlamer.cs)

  predicate IsReady(s: Store, path: string) {
    path in s.cache && s.cache[path].Some?
  }

  predicate IsPending(s: Store, path: string) {
    path in s.cache && s.cache[path].None?
  }

  /** The answer of GetBlame (lines 25-26, 31). */
  function Lookup(s: Store, path: string, line: int): (c: Option<CommitInfo>)
    ensures IsReady(s, path) ==> c == GetAt(s.cache[path].value, line)
    ensures !IsReady(s, path) ==> c == Some(InProgress)
  {
    if path in s.cache then
      match s.cache[path]
      case Some(info) => GetAt(info, line)
      case None => Some(InProgress)
    else
      Some(InProgress)
  }

  /** The launch half of InitialiseFileAsync (line 37; the process start is I/O). */
  function AfterLaunch(s: Store, path: string): (r: Store)
    ensures IsPending(r, path)
    ensures r.log == s.log + [Launched(path)]
    ensures forall q :: q != path ==> (q in r.cache <==> q in s.cache)
    ensures forall q :: q != path && q in s.cache ==> r.cache[q] == s.cache[q]
  {
    Store(s.cache[path := None], s.log + [Launched(path)])
  }

  /** The state after GetBlame (lines 25-31): only an absent path changes, by one launch. */
  function AfterGetBlame(s: Store, path: string): (r: Store)
    ensures path in r.cache
    ensures path in s.cache ==> r == s
    ensures path !in s.cache ==> IsPending(r, path) && r.log == s.log + [Launched(path)]
    ensures forall q :: q != path ==> (q in r.cache <==> q in s.cache)
    ensures forall q :: q != path && q in s.cache ==> r.cache[q] == s.cache[q]
  {
    if path in s.cache then s else AfterLaunch(s, path)
  }

  /** The state after InvalidateCache (lines 17-20). */
  function AfterInvalidate(s: Store, path: string): (r: Store)
    ensures path !in r.cache
    ensures r.log == s.log
    ensures forall q :: q != path ==> (q in r.cache <==> q in s.cache)
    ensures forall q :: q != path && q in s.cache ==> r.cache[q] == s.cache[q]
  {
    s.(cache := s.cache - {path})
  }

  /** ExitCode 0 with non-empty output is the one outcome that is parsed (line 61). */
  predicate Succeeded(exitCode: int, output: string) {
    exitCode == 0 && output != ""
  }

  /**
   * The completion half of InitialiseFileAsync (lines 54-64): discard when
   * the key is gone; otherwise install a fresh table, fill it by parsing on
   * success, and notify.
   */
  function AfterComplete(s: Store, parse: string -> Table, path: string, exitCode: int, output: string): (r: Store)
    ensures path !in s.cache ==> r.cache == s.cache && r.log == s.log + [Dropped(path)]
    ensures path in s.cache ==>
      && r.cache == s.cache[path := Some(if Succeeded(exitCode, output) then parse(output) else Empty)]
      && r.log == s.log + [Notified(path)]
  {
    if path !in s.cache then
      s.(log := s.log + [Dropped(path)])
    else
      var installed := s.cache[path := Some(Empty)];
      var filled := if Succeeded(exitCode, output) then installed[path := Some(parse(output))] else installed;
      Store(filled, s.log + [Notified(path)])
  }

  // ---------------------------------------------------------------------
  // One call at a time

  /** Marking a path pending comes with its launch, so the invariant holds whatever the path's state was. */
  lemma LaunchKeepsConsistent(s: Store, path: string)
    requires Consistent(s)
    ensures Consistent(AfterLaunch(s, path))
  {
    forall q ensures InFlight(s.log + [Launched(path)], q) == InFlight(s.log, q) + (if q == path then 1 else 0) {
      InFlightAppend(s.log, Launched(path), q);
    }
  }

  lemma GetBlameKeepsConsistent(s: Store, path: string)
    requires Consistent(s)
    ensures Consistent(AfterGetBlame(s, path))
  {
    if path !in s.cache {
      LaunchKeepsConsistent(s, path);
    }
  }

  lemma InvalidateKeepsConsistent(s: Store, path: string)
    requires Consistent(s)
    ensures Consistent(AfterInvalidate(s, path))
  {
  }

  lemma CompleteKeepsConsistent(s: Store, parse: string -> Table, path: string, exitCode: int, output: string)
    requires Consistent(s) && InFlight(s.log, path) >= 1
    ensures Consistent(AfterComplete(s, parse, path, exitCode, output))
  {
    var x := if path in s.cache then Notified(path) else Dropped(path);
    forall q ensures InFlight(s.log + [x], q) == InFlight(s.log, q) - (if q == path then 1 else 0) {
      InFlightAppend(s.log, x, q);
    }
  }

  /**
   * In a consistent store every computation comes back at most once, so a
   * path is notified at most as often as it was launched, and a pending
   * path still has a computation running.
   */
  lemma ConsistentBoundsNotifications(s: Store, p: string)
    requires Consistent(s)
    ensures Notifications(s.log, p) + Drops(s.log, p) <= Launches(s.log, p)
    ensures IsPending(s, p) ==> Notifications(s.log, p) + Drops(s.log, p) < Launches(s.log, p)
  {
    InFlightCountsCompletions(s.log, p);
  }

  /** A ready entry answers from its table and GetBlame changes nothing. */
  lemma GetBlameOnReady(s: Store, path: string, line: int)
    requires IsReady(s, path)
    ensures Lookup(s, path, line) == GetAt(s.cache[path].value, line)
    ensures AfterGetBlame(s, path) == s
  {
  }

  /** A pending entry answers InProgress and starts nothing. */
  lemma GetBlameOnPending(s: Store, path: string, line: int)
    requires IsPending(s, path)
    ensures Lookup(s, path, line) == Some(InProgress)
    ensures AfterGetBlame(s, path) == s
  {
  }

  /** An absent path answers InProgress, becomes pending, and is launched exactly once. */
  lemma GetBlameOnAbsent(s: Store, path: string, line: int)
    requires path !in s.cache
    ensures Lookup(s, path, line) == Some(InProgress)
    ensures IsPending(AfterGetBlame(s, path), path)
    ensures Launches(AfterGetBlame(s, path).log, path) == Launches(s.log, path) + 1
    ensures forall q :: q != path ==> Launches(AfterGetBlame(s, path).log, q) == Launches(s.log, q)
  {
    forall q ensures Launches(AfterGetBlame(s, path).log, q) == Launches(s.log, q) + (if q == path then 1 else 0) {
      AppendEvent(s.log, Launched(path), q);
    }
  }

  /** Invalidation is idempotent. */
  lemma InvalidateIdempotent(s: Store, path: string)
    ensures AfterInvalidate(AfterInvalidate(s, path), path) == AfterInvalidate(s, path)
  {
  }

  /** A path that is absent at completion keeps the cache as it is and is not notified. */
  lemma CompleteAfterInvalidation(s: Store, parse: string -> Table, path: string, exitCode: int, output: string)
    requires path !in s.cache
    ensures AfterComplete(s, parse, path, exitCode, output).cache == s.cache
    ensures forall q :: Notifications(AfterComplete(s, parse, path, exitCode, output).log, q) == Notifications(s.log, q)
  {
    forall q ensures Notifications(s.log + [Dropped(path)], q) == Notifications(s.log, q) {
      AppendEvent(s.log, Dropped(path), q);
    }
  }

  /**
   * A path present at completion, pending or ready, receives the new table
   * and exactly one notification; a failed or empty run leaves it ready with
   * the empty table, which answers as a never-parsed table does and is not
   * relaunched.
   */
  lemma CompleteOnPresent(s: Store, parse: string -> Table, path: string, exitCode: int, output: string, line: int)
    requires path in s.cache
    ensures var r := AfterComplete(s, parse, path, exitCode, output);
      && IsReady(r, path)
      && (Succeeded(exitCode, output) ==> Lookup(r, path, line) == GetAt(parse(output), line))
      && (!Succeeded(exitCode, output) ==> Lookup(r, path, line) == GetAt(Empty, line) && AfterGetBlame(r, path) == r)
      && Notifications(r.log, path) == Notifications(s.log, path) + 1
      && (forall q :: q != path ==> Notifications(r.log, q) == Notifications(s.log, q))
  {
    forall q ensures Notifications(s.log + [Notified(path)], q) == Notifications(s.log, q) + (if q == path then 1 else 0) {
      AppendEvent(s.log, Notified(path), q);
    }
  }

  // ---------------------------------------------------------------------
  // Call sequences

  datatype Op =
    | GetBlameOp(path: string, line: int)
    | InvalidateOp(path: string)
    | CompleteOp(path: string, exitCode: int, output: string)

  function Step(s: Store, parse: string -> Table, op: Op): (r: Store) {
    match op
    case GetBlameOp(p, _) => AfterGetBlame(s, p)
    case InvalidateOp(p) => AfterInvalidate(s, p)
    case CompleteOp(p, code, out) => AfterComplete(s, parse, p, code, out)
  }

  function Run(s: Store, parse: string -> Table, ops: seq<Op>): (r: Store)
    decreases |ops|
  {
    if ops == [] then s else Run(Step(s, parse, ops[0]), parse, ops[1..])
  }

  /** Some call in `ops` looks `p` up. */
  predicate LooksUp(ops: seq<Op>, p: string) {
    exists i :: 0 <= i < |ops| && ops[i].GetBlameOp? && ops[i].path == p
  }

  /** One step that does not invalidate `p` launches `p` exactly when it looks up an absent `p`. */
  lemma StepOnPath(s: Store, parse: string -> Table, op: Op, p: string)
    requires op != InvalidateOp(p)
    ensures var r := Step(s, parse, op);
      var launch := p !in s.cache && op.GetBlameOp? && op.path == p;
      && (p in r.cache <==> p in s.cache || launch)
      && Launches(r.log, p) == Launches(s.log, p) + (if launch then 1 else 0)
  {
    match op
    case GetBlameOp(q, _) =>
      if q !in s.cache { AppendEvent(s.log, Launched(q), p); }
    case InvalidateOp(q) =>
    case CompleteOp(q, code, out) =>
      AppendEvent(s.log, if q in s.cache then Notified(q) else Dropped(q), p);
  }

  /**
   * Between two invalidations of a path at most one computation is launched
   * for it: exactly one if it was absent and something looked it up, none
   * otherwise; and it is present at the end exactly when it was present or
   * looked up.
   */
  lemma {:induction false} OneLaunchPerGeneration(s: Store, parse: string -> Table, ops: seq<Op>, p: string)
    requires InvalidateOp(p) !in ops
    decreases |ops|
    ensures var r := Run(s, parse, ops);
      && (p in r.cache <==> p in s.cache || LooksUp(ops, p))
      && Launches(r.log, p) == Launches(s.log, p) + (if p !in s.cache && LooksUp(ops, p) then 1 else 0)
  {
    if ops != [] {
      var s' := Step(s, parse, ops[0]);
      var rest := ops[1..];
      assert ops == [ops[0]] + rest;
      StepOnPath(s, parse, ops[0], p);
      OneLaunchPerGeneration(s', parse, rest, p);
      var here := ops[0].GetBlameOp? && ops[0].path == p;
      if here {
        assert LooksUp(ops, p);
      }
      if LooksUp(ops, p) && !here {
        var i :| 0 <= i < |ops| && ops[i].GetBlameOp? && ops[i].path == p;
        assert rest[i - 1] == ops[i];
      }
      if LooksUp(rest, p) {
        var i :| 0 <= i < |rest| && rest[i].GetBlameOp? && rest[i].path == p;
        assert ops[i + 1] == rest[i];
      }
    }
  }

  /** Every call in `ops` that names `p` is a lookup. */
  predicate OnlyLooksUp(ops: seq<Op>, p: string) {
    forall i :: 0 <= i < |ops| && ops[i].path == p ==> ops[i].GetBlameOp?
  }

  /**
   * A ready entry stays exactly as it is, answering the same for every line
   * and launching nothing, until its path is invalidated or completed again.
   */
  lemma {:induction false} ReadyEntryIsStable(s: Store, parse: string -> Table, ops: seq<Op>, p: string, line: int)
    requires IsReady(s, p)
    requires OnlyLooksUp(ops, p)
    decreases |ops|
    ensures var r := Run(s, parse, ops);
      && IsReady(r, p) && r.cache[p] == s.cache[p]
      && Lookup(r, p, line) == Lookup(s, p, line)
      && Launches(r.log, p) == Launches(s.log, p)
  {
    if ops != [] {
      var s' := Step(s, parse, ops[0]);
      assert ops[0].path == p ==> ops[0].GetBlameOp?;
      StepOnPath(s, parse, ops[0], p);
      assert OnlyLooksUp(ops[1..], p) by {
        forall i | 0 <= i < |ops[1..]| && ops[1..][i].path == p ensures ops[1..][i].GetBlameOp? {
          assert ops[1..][i] == ops[i + 1];
        }
      }
      ReadyEntryIsStable(s', parse, ops[1..], p, line);
    }
  }

  // ---------------------------------------------------------------------
  // The cache object

  /** The static state of GitBlamer: `_gitBlameCache` and what OnBlameFinished reports. */
  class GitBlamer {
    /** FileBlameInfo.Parse, whose body is not part of this model. */
    const parse: string -> Table
    var cache: map<string, Option<Table>>
    ghost var log: seq<Event>

    ghost function Model(): Store
      reads this
    {
      Store(cache, log)
    }

    ghost predicate Valid()
      reads this
    {
      Consistent(Model())
    }

    /** The empty dictionary the static field starts with (line 14). */
    constructor (parse: string -> Table)
      ensures Valid()
      ensures this.parse == parse && cache == map[] && log == []
    {
      this.parse := parse;
      cache := map[];
      log := [];
    }

    method InvalidateCache(path: string)
      requires Valid()
      modifies this
      ensures Valid()
      ensures Model() == AfterInvalidate(old(Model()), path)
    {
      InvalidateKeepsConsistent(Model(), path);
      cache := cache - {path};
    }

    method GetBlame(path: string, line: int) returns (c: Option<CommitInfo>)
      requires Valid()
      modifies this
      ensures Valid()
      ensures c == Lookup(old(Model()), path, line)
      ensures Model() == AfterGetBlame(old(Model()), path)
    {
      GetBlameKeepsConsistent(Model(), path);
      if path in cache {
        var fileBlameInfo := cache[path];
        c := if fileBlameInfo.Some? then GetAt(fileBlameInfo.value, line) else Some(InProgress);
        return;
      }
      InitialiseFile(path);
      c := Some(InProgress);
    }

    /** InitialiseFileAsync up to its await: mark pending and start `git blame`. */
    method InitialiseFile(path: string)
      requires Valid()
      modifies this
      ensures Valid()
      ensures Model() == AfterLaunch(old(Model()), path)
    {
      LaunchKeepsConsistent(Model(), path);
      cache := cache[path := None];
      log := log + [Launched(path)];
    }

    /** InitialiseFileAsync after its await, given the process's exit code and output. */
    method Complete(path: string, exitCode: int, output: string)
      requires Valid() && InFlight(log, path) >= 1
      modifies this
      ensures Valid()
      ensures Model() == AfterComplete(old(Model()), parse, path, exitCode, output)
    {
      CompleteKeepsConsistent(Model(), parse, path, exitCode, output);
      if path !in cache {
        log := log + [Dropped(path)];
        return;
      }
      var blameInfo := Empty;
      cache := cache[path := Some(blameInfo)];
      if Succeeded(exitCode, output) {
        blameInfo := parse(output);
        cache := cache[path := Some(blameInfo)];
      }
      log := log + [Notified(path)];
    }
  }
}
