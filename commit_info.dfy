/**
 * The commit record shown beside a line (VSGitBlame.Core/CommitInfo.cs):
 * five auto-properties with initialisers, an opaque time stamp, and the two
 * shared sentinel instances.
 */
module Commits {

  /**
   * A DateTimeOffset kept opaque: a clock reading in ticks and an offset in
   * minutes, on which the model does no arithmetic.
   */
  datatype TimeStamp = TimeStamp(ticks: int, offsetMinutes: int)

  /** default(DateTimeOffset): tick 0 at offset zero. */
  const DefaultTime: TimeStamp := TimeStamp(0, 0)

  datatype CommitInfo = CommitInfo(
    showDetails: bool,
    hash: string,
    authorName: string,
    authorEmail: string,
    summary: string,
    time: TimeStamp)

  /** `new CommitInfo()`: every property at its initialiser. */
  const Fresh: CommitInfo := CommitInfo(true, "", "", "", "", DefaultTime)

  /** The placeholder answered while a file's blame is being computed. */
  const InProgress: CommitInfo := Fresh.(showDetails := false, summary := "Blame in progress..")

  /** The answer for a line no commit is attributed to. */
  const Uncommitted: CommitInfo := Fresh.(showDetails := false, summary := "Uncommitted changes")

  /** True of a record whose commit identity (hash, author, address) is empty. */
  predicate NoIdentity(c: CommitInfo) {
    c.hash == "" && c.authorName == "" && c.authorEmail == ""
  }

  lemma FreshDefaults()
    ensures Fresh.showDetails
    ensures NoIdentity(Fresh) && Fresh.summary == ""
    ensures Fresh.time == DefaultTime
  {
  }

  lemma InProgressFields()
    ensures !InProgress.showDetails
    ensures InProgress.summary == "Blame in progress.."
  {
  }

  lemma UncommittedFields()
    ensures !Uncommitted.showDetails
    ensures Uncommitted.summary == "Uncommitted changes"
  {
  }

  /** Only ShowDetails and Summary are overridden, so the rest keeps its defaults. */
  lemma SentinelsKeepDefaults()
    ensures NoIdentity(InProgress) && InProgress.time == DefaultTime
    ensures NoIdentity(Uncommitted) && Uncommitted.time == DefaultTime
  {
  }

  /** The two sentinels are told apart by their summaries alone. */
  lemma SentinelsDistinct()
    ensures InProgress.summary != Uncommitted.summary
    ensures InProgress != Uncommitted
    ensures InProgress != Fresh && Uncommitted != Fresh
  {
    assert InProgress.summary[0] == 'B' && Uncommitted.summary[0] == 'U';
  }
}
