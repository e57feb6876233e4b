/**
 * The blame table of one file (FileBlameInfo in VSGitBlame.Core). Its parser
 * and its lookup are not part of this model: a table is an abstract map from
 * 1-based line numbers to commits, and parsing is a function handed to the
 * cache.
 */
module FileBlame {
  import opened Wrappers
  import opened Commits

  datatype Table = Table(lines: map<int, CommitInfo>)

  /** A freshly constructed FileBlameInfo, before or without Parse. */
  const Empty: Table := Table(map[])

  /**
   * What GetAt answers for a line the table does not hold. FileBlameInfo's
   * source is not part of this model, so the answer is left open: some
   * commit record (Some) or none at all (None, a null reference). An
   * exception from GetAt is not represented.
   */
  const OffTable: Option<CommitInfo>

  /** The commit for `line`, as FileBlameInfo.GetAt gives it; None is null. */
  function GetAt(t: Table, line: int): (c: Option<CommitInfo>)
    ensures line in t.lines ==> c == Some(t.lines[line])
    ensures line !in t.lines ==> c == OffTable
  {
    if line in t.lines then Some(t.lines[line]) else OffTable
  }

  /** A table that was never parsed gives the same answer for every line. */
  lemma EmptyAnswersAlike(line1: int, line2: int)
    ensures GetAt(Empty, line1) == GetAt(Empty, line2) == OffTable
  {
  }
}
