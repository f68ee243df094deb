/** The planning part of the database backup job (src/git_tool.py): read the
    start of the time range from the last backup commit, decide between a
    new commit and an amend, compose the message and choose the push. The
    git and cp shell-outs are inputs and outputs of the plan. */
module GitBackup {
  import opened Wrappers

  const COMMIT_PREFIX: string := "[DB-AUTO-BACKUP]"
  const BRANCH: string := "main"
  /** Length of a "%Y-%m-%dT%H:%M:%S" stamp with a four-digit year. */
  const STAMP_LEN: nat := 19
  /** Length of a range: two stamps and the dash between them. */
  const RANGE_LEN: nat := 2 * STAMP_LEN + 1

  predicate IsDigit(c: char)
  {
    '0' <= c <= '9'
  }

  /** `\d{4}-\d{2}-\d{2}T\d{2}:\d{2}:\d{2}` */
  predicate IsStamp(s: string)
  {
    && |s| == STAMP_LEN
    && (forall i :: 0 <= i < STAMP_LEN && i !in {4, 7, 10, 13, 16} ==> IsDigit(s[i]))
    && s[4] == '-' && s[7] == '-' && s[10] == 'T' && s[13] == ':' && s[16] == ':'
  }

  /** RANGE_RE matches at position i (its length is fixed, so there is at
      most one match per position). */
  predicate RangeAt(msg: string, i: nat)
  {
    && i + RANGE_LEN <= |msg|
    && IsStamp(msg[i..i + STAMP_LEN])
    && msg[i + STAMP_LEN] == '-'
    && IsStamp(msg[i + STAMP_LEN + 1..i + RANGE_LEN])
  }

  /** re.search from position i: the leftmost match at or after i. */
  function FirstRange(msg: string, i: nat): (r: Option<nat>)
    ensures r.Some? ==> i <= r.value && RangeAt(msg, r.value)
                        && forall j :: i <= j < r.value ==> !RangeAt(msg, j)
    ensures r.None? ==> forall j :: i <= j ==> !RangeAt(msg, j)
    decreases |msg| - i
  {
    if i + RANGE_LEN > |msg| then None
    else if RangeAt(msg, i) then Some(i)
    else FirstRange(msg, i + 1)
  }

  /** parse_start_from_commit: the start stamp of the leftmost range. */
  function ParseStartFromCommit(msg: string): (r: Option<string>)
    ensures r.None? <==> forall j :: 0 <= j ==> !RangeAt(msg, j)
    ensures r.Some? ==> IsStamp(r.value)
  {
    var m := FirstRange(msg, 0);
    if m.Some? then Some(msg[m.value..m.value + STAMP_LEN]) else None
  }

  /** The parsed start is the first stamp of the leftmost range. */
  lemma ParseStartIsLeftmost(msg: string, i: nat)
    requires RangeAt(msg, i) && forall j :: 0 <= j < i ==> !RangeAt(msg, j)
    ensures ParseStartFromCommit(msg) == Some(msg[i..i + STAMP_LEN])
  {
  }

  /** The message of a backup commit covering [start, now]. */
  function CommitMessage(start: string, now: string): string
  {
    COMMIT_PREFIX + " " + start + "-" + now
  }

  /** A position inside the prefix cannot start a range: the prefix has no
      digit. */
  lemma NoRangeInPrefix(msg: string, j: nat)
    requires |COMMIT_PREFIX| + 1 <= |msg| && msg[..|COMMIT_PREFIX| + 1] == COMMIT_PREFIX + " "
    requires j < |COMMIT_PREFIX| + 1
    ensures !RangeAt(msg, j)
  {
    assert msg[j] == (COMMIT_PREFIX + " ")[j];
    assert !IsDigit(msg[j]);
    if j + RANGE_LEN <= |msg| {
      assert msg[j..j + STAMP_LEN][0] == msg[j];
    }
  }

  /** Parsing a composed message gives back its start stamp. */
  lemma ParseComposed(start: string, now: string)
    requires IsStamp(start) && IsStamp(now)
    ensures ParseStartFromCommit(CommitMessage(start, now)) == Some(start)
  {
    var msg := CommitMessage(start, now);
    var k := |COMMIT_PREFIX| + 1;
    assert msg[..k] == COMMIT_PREFIX + " ";
    assert msg[k..k + STAMP_LEN] == start;
    assert msg[k + STAMP_LEN] == '-';
    assert msg[k + STAMP_LEN + 1..k + RANGE_LEN] == now;
    assert RangeAt(msg, k);
    forall j | 0 <= j < k
      ensures !RangeAt(msg, j)
    {
      NoRangeInPrefix(msg, j);
    }
    assert FirstRange(msg, 0) == Some(k);
  }

  /** Amend when the last subject is a backup commit with a range. */
  function ShouldAmend(subject: string): bool
  {
    |COMMIT_PREFIX| <= |subject| && subject[..|COMMIT_PREFIX|] == COMMIT_PREFIX
    && ParseStartFromCommit(subject).Some?
  }

  /** The start of the range: the parsed start when amending, else now. */
  function StartTime(subject: string, now: string): string
  {
    if ShouldAmend(subject) then ParseStartFromCommit(subject).value else now
  }

  /** What the job does: nothing, or a commit (amending or not) with its
      message, then a push. */
  datatype Plan = NoChange | Commit(amend: bool, message: string, commitArgs: seq<string>, pushArgs: seq<string>)

  function BackupPlan(diff: string, subject: string, now: string): Plan
  {
    if diff == "" then NoChange
    else
      var msg := CommitMessage(StartTime(subject, now), now);
      if ShouldAmend(subject) then
        Commit(true, msg, ["git", "commit", "--amend", "-m", msg], ["git", "push", "--force", "origin", BRANCH])
      else
        Commit(false, msg, ["git", "commit", "-m", msg], ["git", "push", "origin", BRANCH])
  }

  /** The subject `git log -1 --pretty=%s` reports; a failed read (None)
      counts as an empty subject. */
  function SubjectOf(lastSubject: Option<string>): string
  {
    if lastSubject.Some? then lastSubject.value else ""
  }

  /** commit_db_if_changed, with the outputs of git diff and git log as
      inputs and the commit and push commands as the result. */
  method CommitDbIfChanged(diff: string, lastSubject: Option<string>, now: string) returns (plan: Plan)
    ensures plan == BackupPlan(diff, SubjectOf(lastSubject), now)
  {
    if diff == "" {
      return NoChange;
    }
    var lastCommitMsg := "";
    var startTime := now;
    var shouldAmend := false;
    if lastSubject.Some? {
      lastCommitMsg := lastSubject.value;
    }
    if |COMMIT_PREFIX| <= |lastCommitMsg| && lastCommitMsg[..|COMMIT_PREFIX|] == COMMIT_PREFIX {
      var possibleStart := ParseStartFromCommit(lastCommitMsg);
      if possibleStart.Some? && possibleStart.value != "" {
        startTime := possibleStart.value;
        shouldAmend := true;
      }
    }
    var commitMessage := CommitMessage(startTime, now);
    if shouldAmend {
      plan := Commit(true, commitMessage, ["git", "commit", "--amend", "-m", commitMessage],
                     ["git", "push", "--force", "origin", BRANCH]);
    } else {
      plan := Commit(false, commitMessage, ["git", "commit", "-m", commitMessage], ["git", "push", "origin", BRANCH]);
    }
  }

  /** No diff, no commit and no push; otherwise the job amends exactly when
      the last subject is a backup commit with a range, keeping its start,
      force-pushes an amend and plainly pushes a new commit, both to origin
      main; an unreadable subject leads to a new commit. */
  lemma BackupPlanSpec(diff: string, lastSubject: Option<string>, now: string)
    ensures var p := BackupPlan(diff, SubjectOf(lastSubject), now);
            && (p.NoChange? <==> diff == "")
            && (p.Commit? ==> (p.amend <==> ShouldAmend(SubjectOf(lastSubject))))
            && (p.Commit? ==> p.message == CommitMessage(StartTime(SubjectOf(lastSubject), now), now))
            && (p.Commit? && p.amend ==> p.pushArgs == ["git", "push", "--force", "origin", "main"]
                                         && p.commitArgs == ["git", "commit", "--amend", "-m", p.message])
            && (p.Commit? && !p.amend ==> p.pushArgs == ["git", "push", "origin", "main"]
                                          && p.commitArgs == ["git", "commit", "-m", p.message])
            && (p.Commit? && lastSubject.None? ==> !p.amend && p.message == CommitMessage(now, now))
  {
    if lastSubject.None? {
      assert |SubjectOf(lastSubject)| < |COMMIT_PREFIX|;
    }
  }

  /** The subject left after a run with a change: the new message. */
  function SubjectAfter(subject: string, nows: seq<string>): string
  {
    if nows == [] then subject
    else
      match BackupPlan("changed", SubjectAfter(subject, nows[..|nows| - 1]), nows[|nows| - 1])
      case NoChange => subject
      case Commit(_, msg, _, _) => msg
  }

  /** A backup commit's own subject is amended by the next run. */
  lemma AmendAfterBackup(start: string, now: string, next: string)
    requires IsStamp(start) && IsStamp(now)
    ensures ShouldAmend(CommitMessage(start, now))
    ensures BackupPlan("changed", CommitMessage(start, now), next).amend
    ensures BackupPlan("changed", CommitMessage(start, now), next).message == CommitMessage(start, next)
  {
    ParseComposed(start, now);
    assert CommitMessage(start, now)[..|COMMIT_PREFIX|] == COMMIT_PREFIX;
  }

  /** Runs from a non-backup subject: the first creates a commit starting at
      its own time, every later one amends it, so the subject always spans
      from the first run to the latest. */
  lemma {:induction false} RepeatedAmendsKeepStart(subject: string, nows: seq<string>)
    requires !ShouldAmend(subject)
    requires |nows| > 0 && forall k :: 0 <= k < |nows| ==> IsStamp(nows[k])
    ensures SubjectAfter(subject, nows) == CommitMessage(nows[0], nows[|nows| - 1])
  {
    if |nows| > 1 {
      var init := nows[..|nows| - 1];
      RepeatedAmendsKeepStart(subject, init);
      AmendAfterBackup(nows[0], init[|init| - 1], nows[|nows| - 1]);
    }
  }
}
