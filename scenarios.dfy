/**
 * Interleavings of GitBlamer's callers and its background completions.
 * Each is stated twice in the same shape: as a lemma about the trace of
 * stores the calls go through, and as the same sequence of calls on one
 * cache object, proved from the method contracts and that lemma.
 */
module BlamerScenarios {
  import opened Wrappers
  import opened Commits
  import opened FileBlame
  import opened Blamer

  // ---------------------------------------------------------------------
  // Traces of stores

  /** Two lookups of a fresh path before any completion launch exactly one computation. */
  lemma TwoLookupsLaunchOnce(s0: Store, p: string, line1: int, line2: int, s1: Store, s2: Store)
    requires p !in s0.cache
    requires s1 == AfterGetBlame(s0, p) && s2 == AfterGetBlame(s1, p)
    ensures Lookup(s0, p, line1) == Some(InProgress) && Lookup(s1, p, line2) == Some(InProgress)
    ensures s2 == s1 && IsPending(s2, p)
    ensures Launches(s2.log, p) == Launches(s0.log, p) + 1
  {
    CountAppend(s0.log, Launched(p), Launched(p));
  }

  /**
   * A path invalidated while its computation runs: the result is dropped,
   * nothing is notified, and the next lookup launches a new computation.
   */
  lemma InvalidatedMidFlight(s0: Store, parse: string -> Table, p: string, exitCode: int, output: string, line: int,
                             s1: Store, s2: Store, s3: Store)
    requires p !in s0.cache
    requires s1 == AfterGetBlame(s0, p)
    requires s2 == AfterInvalidate(s1, p)
    requires s3 == AfterComplete(s2, parse, p, exitCode, output)
    ensures s3.cache == s0.cache
    ensures forall q :: Notifications(s3.log, q) == Notifications(s0.log, q)
    ensures InFlight(s3.log, p) == InFlight(s0.log, p)
    ensures Lookup(s3, p, line) == Some(InProgress)
    ensures Launches(AfterGetBlame(s3, p).log, p) == Launches(s0.log, p) + 2
  {
    assert s3.cache == s0.cache;
    InFlightAppend(s0.log, Launched(p), p);
    InFlightAppend(s1.log, Dropped(p), p);
    CountAppend(s0.log, Launched(p), Launched(p));
    CountAppend(s1.log, Dropped(p), Launched(p));
    CountAppend(s3.log, Launched(p), Launched(p));
    forall q ensures Notifications(s3.log, q) == Notifications(s0.log, q) {
      CountAppend(s0.log, Launched(p), Notified(q));
      CountAppend(s1.log, Dropped(p), Notified(q));
    }
  }

  /**
   * The discard test is key presence, not generation: after an invalidation
   * and a second lookup, the first computation's result is installed and
   * notified although the second computation is still running.
   */
  lemma OlderResultInstalledAfterRelaunch(s0: Store, parse: string -> Table, p: string, output: string, line: int,
                                          s1: Store, s2: Store, s3: Store, s4: Store)
    requires p !in s0.cache && output != ""
    requires s1 == AfterGetBlame(s0, p)
    requires s2 == AfterInvalidate(s1, p)
    requires s3 == AfterGetBlame(s2, p)
    requires s4 == AfterComplete(s3, parse, p, 0, output)
    ensures InFlight(s3.log, p) == InFlight(s0.log, p) + 2
    ensures s4.cache == s0.cache[p := Some(parse(output))]
    ensures Lookup(s4, p, line) == GetAt(parse(output), line)
    ensures Notifications(s4.log, p) == Notifications(s0.log, p) + 1
    ensures InFlight(s4.log, p) == InFlight(s0.log, p) + 1
  {
    assert s4.cache == s0.cache[p := Some(parse(output))];
    InFlightAppend(s0.log, Launched(p), p);
    InFlightAppend(s2.log, Launched(p), p);
    InFlightAppend(s3.log, Notified(p), p);
    CountAppend(s0.log, Launched(p), Notified(p));
    CountAppend(s2.log, Launched(p), Notified(p));
    CountAppend(s3.log, Notified(p), Notified(p));
  }

  /**
   * The same relaunch with the completions in the other order: the newer
   * computation finishes first and the older one last, so the older output
   * stays installed and neither of the two computations is still running.
   * A computation launched before the first lookup could still replace it.
   */
  lemma OlderResultOutlivesNewer(s0: Store, parse: string -> Table, p: string, older: string, newer: string, line: int,
                                 s1: Store, s2: Store, s3: Store, s4: Store, s5: Store)
    requires p !in s0.cache && older != "" && newer != ""
    requires s1 == AfterGetBlame(s0, p)
    requires s2 == AfterInvalidate(s1, p)
    requires s3 == AfterGetBlame(s2, p)
    requires s4 == AfterComplete(s3, parse, p, 0, newer)
    requires s5 == AfterComplete(s4, parse, p, 0, older)
    ensures InFlight(s4.log, p) == InFlight(s0.log, p) + 1
    ensures s5.cache == s0.cache[p := Some(parse(older))]
    ensures Lookup(s5, p, line) == GetAt(parse(older), line)
    ensures AfterGetBlame(s5, p) == s5
    ensures InFlight(s5.log, p) == InFlight(s0.log, p)
    ensures Notifications(s5.log, p) == Notifications(s0.log, p) + 2
  {
    OlderResultInstalledAfterRelaunch(s0, parse, p, newer, line, s1, s2, s3, s4);
    SecondInstall(s0, s4, parse, p, older, newer, line, s5);
  }

  /** The last completion of the reversed order, from the store the first one left. */
  lemma SecondInstall(s0: Store, s4: Store, parse: string -> Table, p: string, older: string, newer: string, line: int, s5: Store)
    requires older != ""
    requires s4.cache == s0.cache[p := Some(parse(newer))]
    requires s5 == AfterComplete(s4, parse, p, 0, older)
    ensures s5.cache == s0.cache[p := Some(parse(older))]
    ensures Lookup(s5, p, line) == GetAt(parse(older), line)
    ensures AfterGetBlame(s5, p) == s5
    ensures InFlight(s5.log, p) == InFlight(s4.log, p) - 1
    ensures Notifications(s5.log, p) == Notifications(s4.log, p) + 1
  {
    SuccessfulInstall(s4, parse, p, older, s5);
    GetBlameOnReady(s5, p, line);
  }

  /** One successful completion of a present path: installed, notified, one fewer running. */
  lemma SuccessfulInstall(s: Store, parse: string -> Table, p: string, output: string, r: Store)
    requires p in s.cache && output != ""
    requires r == AfterComplete(s, parse, p, 0, output)
    ensures r.cache == s.cache[p := Some(parse(output))]
    ensures InFlight(r.log, p) == InFlight(s.log, p) - 1
    ensures Notifications(r.log, p) == Notifications(s.log, p) + 1
  {
    InFlightAppend(s.log, Notified(p), p);
    CountAppend(s.log, Notified(p), Notified(p));
  }

  /**
   * A run that fails or prints nothing leaves the path ready with the empty
   * table: every line answers as a never-parsed table does, and a lookup
   * starts nothing.
   */
  lemma FailedRunIsCached(s0: Store, parse: string -> Table, p: string, exitCode: int, output: string,
                          s1: Store, s2: Store)
    requires p !in s0.cache && !Succeeded(exitCode, output)
    requires s1 == AfterGetBlame(s0, p)
    requires s2 == AfterComplete(s1, parse, p, exitCode, output)
    ensures s2.cache == s0.cache[p := Some(Empty)]
    ensures forall line :: Lookup(s2, p, line) == GetAt(Empty, line)
    ensures AfterGetBlame(s2, p) == s2
    ensures Notifications(s2.log, p) == Notifications(s0.log, p) + 1
    ensures InFlight(s2.log, p) == InFlight(s0.log, p)
  {
    assert s2.cache == s0.cache[p := Some(Empty)];
    InFlightAppend(s0.log, Launched(p), p);
    InFlightAppend(s1.log, Notified(p), p);
    CountAppend(s0.log, Launched(p), Notified(p));
    CountAppend(s1.log, Notified(p), Notified(p));
  }

  /**
   * After a successful run the path answers from the parsed table; once
   * invalidated it answers InProgress again, never the stale table, and
   * the next lookup launches a second computation.
   */
  lemma InvalidateAfterReady(s0: Store, parse: string -> Table, p: string, output: string, line: int,
                             s1: Store, s2: Store, s3: Store)
    requires p !in s0.cache && output != ""
    requires s1 == AfterGetBlame(s0, p)
    requires s2 == AfterComplete(s1, parse, p, 0, output)
    requires s3 == AfterInvalidate(s2, p)
    ensures Lookup(s2, p, line) == GetAt(parse(output), line)
    ensures s3.cache == s0.cache
    ensures Lookup(s3, p, line) == Some(InProgress)
    ensures IsPending(AfterGetBlame(s3, p), p)
    ensures Launches(AfterGetBlame(s3, p).log, p) == Launches(s0.log, p) + 2
  {
    assert s3.cache == s0.cache;
    CountAppend(s0.log, Launched(p), Launched(p));
    CountAppend(s1.log, Notified(p), Launched(p));
    CountAppend(s3.log, Launched(p), Launched(p));
  }

  // ---------------------------------------------------------------------
  // The same sequences as calls on one cache

  method TwoLookups(b: GitBlamer, p: string, line1: int, line2: int) returns (c1: Option<CommitInfo>, c2: Option<CommitInfo>)
    requires b.Valid() && p !in b.cache
    modifies b
    ensures b.Valid()
    ensures c1 == Some(InProgress) && c2 == Some(InProgress)
    ensures IsPending(b.Model(), p)
    ensures Launches(b.log, p) == Launches(old(b.log), p) + 1
  {
    ghost var s0 := b.Model();
    c1 := b.GetBlame(p, line1);
    ghost var s1 := b.Model();
    c2 := b.GetBlame(p, line2);
    TwoLookupsLaunchOnce(s0, p, line1, line2, s1, b.Model());
  }

  method InvalidateWhileRunning(b: GitBlamer, p: string, line: int, exitCode: int, output: string) returns (c: Option<CommitInfo>)
    requires b.Valid() && p !in b.cache
    modifies b
    ensures b.Valid()
    ensures b.cache == old(b.cache)
    ensures forall q :: Notifications(b.log, q) == Notifications(old(b.log), q)
    ensures c == Some(InProgress)
  {
    ghost var s0 := b.Model();
    c := b.GetBlame(p, line);
    ghost var s1 := b.Model();
    AppendEvent(s0.log, Launched(p), p);
    b.InvalidateCache(p);
    ghost var s2 := b.Model();
    b.Complete(p, exitCode, output);
    InvalidatedMidFlight(s0, b.parse, p, exitCode, output, line, s1, s2, b.Model());
  }

  method RelaunchThenOlderCompletes(b: GitBlamer, p: string, line: int, output: string) returns (c: Option<CommitInfo>)
    requires b.Valid() && p !in b.cache && output != ""
    modifies b
    ensures b.Valid()
    ensures b.cache == old(b.cache)[p := Some(b.parse(output))]
    ensures c == GetAt(b.parse(output), line)
    ensures InFlight(b.log, p) == InFlight(old(b.log), p) + 1
  {
    ghost var s0 := b.Model();
    c := b.GetBlame(p, line);
    ghost var s1 := b.Model();
    b.InvalidateCache(p);
    ghost var s2 := b.Model();
    c := b.GetBlame(p, line);
    ghost var s3 := b.Model();
    OlderResultInstalledAfterRelaunch(s0, b.parse, p, output, line, s1, s2, s3, AfterComplete(s3, b.parse, p, 0, output));
    b.Complete(p, 0, output);
    c := b.GetBlame(p, line);
  }

  method NewerThenOlderCompletes(b: GitBlamer, p: string, line: int, older: string, newer: string) returns (c: Option<CommitInfo>)
    requires b.Valid() && p !in b.cache && older != "" && newer != ""
    modifies b
    ensures b.Valid()
    ensures b.cache == old(b.cache)[p := Some(b.parse(older))]
    ensures c == GetAt(b.parse(older), line)
    ensures InFlight(b.log, p) == InFlight(old(b.log), p)
  {
    ghost var s0 := b.Model();
    c := b.GetBlame(p, line);
    ghost var s1 := b.Model();
    b.InvalidateCache(p);
    ghost var s2 := b.Model();
    c := b.GetBlame(p, line);
    ghost var s3 := b.Model();
    ghost var s4 := AfterComplete(s3, b.parse, p, 0, newer);
    OlderResultOutlivesNewer(s0, b.parse, p, older, newer, line, s1, s2, s3, s4, AfterComplete(s4, b.parse, p, 0, older));
    b.Complete(p, 0, newer);
    b.Complete(p, 0, older);
    c := b.GetBlame(p, line);
  }

  method LookupAfterFailedRun(b: GitBlamer, p: string, line: int, exitCode: int, output: string) returns (c: Option<CommitInfo>)
    requires b.Valid() && p !in b.cache && !Succeeded(exitCode, output)
    modifies b
    ensures b.Valid()
    ensures c == GetAt(Empty, line)
    ensures b.cache == old(b.cache)[p := Some(Empty)]
    ensures Launches(b.log, p) == Launches(old(b.log), p) + 1
  {
    ghost var s0 := b.Model();
    c := b.GetBlame(p, line);
    ghost var s1 := b.Model();
    AppendEvent(s0.log, Launched(p), p);
    b.Complete(p, exitCode, output);
    FailedRunIsCached(s0, b.parse, p, exitCode, output, s1, b.Model());
    AppendEvent(s1.log, Notified(p), p);
    c := b.GetBlame(p, line);
  }

  method LookupAfterInvalidation(b: GitBlamer, p: string, line: int, output: string) returns (before: Option<CommitInfo>, after: Option<CommitInfo>)
    requires b.Valid() && p !in b.cache && output != ""
    modifies b
    ensures b.Valid()
    ensures before == GetAt(b.parse(output), line)
    ensures after == Some(InProgress)
    ensures IsPending(b.Model(), p)
    ensures Launches(b.log, p) == Launches(old(b.log), p) + 2
  {
    ghost var s0 := b.Model();
    var c := b.GetBlame(p, line);
    ghost var s1 := b.Model();
    AppendEvent(s0.log, Launched(p), p);
    b.Complete(p, 0, output);
    ghost var s2 := b.Model();
    before := b.GetBlame(p, line);
    b.InvalidateCache(p);
    ghost var s3 := b.Model();
    InvalidateAfterReady(s0, b.parse, p, output, line, s1, s2, s3);
    after := b.GetBlame(p, line);
  }
}
