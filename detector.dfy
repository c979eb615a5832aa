/**
 * Change detection for one tracked repository: the observed latest release
 * and commit are compared with the stored ones, and each difference yields
 * one notification text. When anything changed, the row is rewritten with the
 * observed pair: both `update_tracker` calls of the check loop write
 * `[commit, release, now, ...]`, so an observed None overwrites the stored
 * value with NULL.
 */
module Detector {
  import opened Common
  import opened Tracker

  /** An observed reference counts as news when there is one and it differs from the stored one. */
  predicate Changed(stored: Option<string>, observed: Option<string>) {
    observed.Some? && observed != stored
  }

  /** The text announcing a new release of `repo`. */
  function ReleaseMessage(repo: string, release: string): string {
    "New release for repository " + repo + ": " + release
  }

  /** The text announcing a new commit of `repo`. */
  function CommitMessage(repo: string, commit: string): string {
    "New commit for repository " + repo + ": " + commit
  }

  /** The row as the check leaves it, and the texts announced for it, in order. */
  datatype Outcome = Outcome(row: Row, messages: seq<string>)

  /** One iteration of the check loop for `row`, given what the classifiers observed. */
  function Transition(row: Row, release: Option<string>, commit: Option<string>, now: string): (o: Outcome)
    ensures |o.messages| <= 2
    ensures o.messages == [] <==> !Changed(row.latestRelease, release) && !Changed(row.latestCommit, commit)
    ensures o.messages == [] ==> o.row == row
    ensures o.messages != [] ==>
      o.row.latestRelease == release && o.row.latestCommit == commit && o.row.lastUpdated == now
    ensures o.row.owner == row.owner && o.row.repo == row.repo && o.row.website == row.website
  {
    var releaseNews := if Changed(row.latestRelease, release) then [ReleaseMessage(row.repo, release.value)] else [];
    var commitNews := if Changed(row.latestCommit, commit) then [CommitMessage(row.repo, commit.value)] else [];
    var messages := releaseNews + commitNews;
    if messages == [] then Outcome(row, messages)
    else Outcome(row.(latestRelease := release, latestCommit := commit, lastUpdated := now), messages)
  }

  // ---------------------------------------------------------------------------
  // Properties of change detection

  /** A release text and a commit text never coincide: they differ in their fifth character. */
  lemma ReleaseAndCommitTextsDiffer(repo: string, release: string, otherRepo: string, commit: string)
    ensures ReleaseMessage(repo, release) != CommitMessage(otherRepo, commit)
  {
    assert ReleaseMessage(repo, release)[4] == 'r';
    assert CommitMessage(otherRepo, commit)[4] == 'c';
  }

  /** A release is announced exactly when an observed release differs from the stored one. */
  lemma ReleaseAnnouncedIff(row: Row, release: Option<string>, commit: Option<string>, now: string, v: string)
    ensures ReleaseMessage(row.repo, v) in Transition(row, release, commit, now).messages <==>
      release == Some(v) && Changed(row.latestRelease, release)
  {
    var o := Transition(row, release, commit, now);
    if Changed(row.latestCommit, commit) {
      ReleaseAndCommitTextsDiffer(row.repo, v, row.repo, commit.value);
    }
    if ReleaseMessage(row.repo, v) in o.messages && Changed(row.latestRelease, release) {
      var k :| 0 <= k < |o.messages| && o.messages[k] == ReleaseMessage(row.repo, v);
      if k == 0 {
        ReleaseTextDeterminesReference(row.repo, release.value, v);
      }
    }
  }

  /** A commit is announced exactly when an observed commit differs from the stored one. */
  lemma CommitAnnouncedIff(row: Row, release: Option<string>, commit: Option<string>, now: string, v: string)
    ensures CommitMessage(row.repo, v) in Transition(row, release, commit, now).messages <==>
      commit == Some(v) && Changed(row.latestCommit, commit)
  {
    var o := Transition(row, release, commit, now);
    if Changed(row.latestRelease, release) {
      ReleaseAndCommitTextsDiffer(row.repo, release.value, row.repo, v);
    }
    if CommitMessage(row.repo, v) in o.messages && Changed(row.latestCommit, commit) {
      var k :| 0 <= k < |o.messages| && o.messages[k] == CommitMessage(row.repo, v);
      if k == |o.messages| - 1 {
        CommitTextDeterminesReference(row.repo, commit.value, v);
      }
    }
  }

  lemma ReleaseTextDeterminesReference(repo: string, a: string, b: string)
    requires ReleaseMessage(repo, a) == ReleaseMessage(repo, b)
    ensures a == b
  {
    var n := |"New release for repository " + repo + ": "|;
    assert a == ReleaseMessage(repo, a)[n..];
    assert b == ReleaseMessage(repo, b)[n..];
  }

  lemma CommitTextDeterminesReference(repo: string, a: string, b: string)
    requires CommitMessage(repo, a) == CommitMessage(repo, b)
    ensures a == b
  {
    var n := |"New commit for repository " + repo + ": "|;
    assert a == CommitMessage(repo, a)[n..];
    assert b == CommitMessage(repo, b)[n..];
  }

  /** When both change, the release text is announced before the commit text. */
  lemma ReleaseAnnouncedFirst(row: Row, release: string, commit: string, now: string)
    requires Changed(row.latestRelease, Some(release)) && Changed(row.latestCommit, Some(commit))
    ensures Transition(row, Some(release), Some(commit), now).messages ==
      [ReleaseMessage(row.repo, release), CommitMessage(row.repo, commit)]
  {
  }

  /** Checking again with the same observations announces nothing and changes nothing. */
  lemma TransitionSettles(row: Row, release: Option<string>, commit: Option<string>, now: string, later: string)
    ensures Transition(Transition(row, release, commit, now).row, release, commit, later).messages == []
    ensures Transition(Transition(row, release, commit, now).row, release, commit, later).row
         == Transition(row, release, commit, now).row
  {
  }

  /** A new release observed together with no commit erases the stored commit. */
  lemma NoCommitObservedErasesStoredCommit(row: Row, release: string, now: string)
    requires Changed(row.latestRelease, Some(release))
    ensures Transition(row, Some(release), None, now).row.latestCommit == None
    ensures Transition(row, Some(release), None, now).messages == [ReleaseMessage(row.repo, release)]
  {
  }

  /** Observing nothing announces nothing and leaves the row untouched. */
  lemma NothingObservedNothingChanges(row: Row, now: string)
    ensures Transition(row, None, None, now) == Outcome(row, [])
  {
  }

  /** The first check after a load announces both references of a repository that has them. */
  lemma FirstCheckAnnouncesBoth(e: WatchList.Entry, loaded: string, release: string, commit: string, now: string)
    ensures Transition(NewRow(e, loaded), Some(release), Some(commit), now) ==
      Outcome(Row(e.owner, e.repo, Some(release), Some(commit), now, e.host),
              [ReleaseMessage(e.repo, release), CommitMessage(e.repo, commit)])
  {
  }
}
