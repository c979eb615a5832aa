/**
 * The tracker database: one SQLite table `repo` with the columns
 * (owner, repo, latest_release, latest_commit, last_updated, website).
 * The table is modelled as the sequence of its rows in storage order; each
 * SQL statement of the checker is one method that replaces that sequence.
 * SQL NULL is `None`. The `website` column only ever receives the tags
 * produced by the watch-list reader, so it is typed by `Host`.
 */
module Tracker {
  import opened Common
  import opened WatchList

  datatype Row = Row(
    owner: string,
    repo: string,
    latestRelease: Option<string>,
    latestCommit: Option<string>,
    lastUpdated: string,
    website: Host)

  /** The row belongs to this owner and repository (the lookup and delete match on these two columns). */
  predicate Names(r: Row, owner: string, repo: string) {
    r.owner == owner && r.repo == repo
  }

  /** The row carries this key: owner, repository and website, the columns the update matches on. */
  predicate HasKey(r: Row, owner: string, repo: string, website: Host) {
    Names(r, owner, repo) && r.website == website
  }

  /** Some row names this owner and repository, whatever its website. */
  predicate Tracked(rows: seq<Row>, owner: string, repo: string) {
    exists i :: 0 <= i < |rows| && Names(rows[i], owner, repo)
  }

  /** No two rows name the same owner and repository. */
  predicate Distinct(rows: seq<Row>) {
    forall i, j :: 0 <= i < j < |rows| ==> !Names(rows[i], rows[j].owner, rows[j].repo)
  }

  /** The rows the lookup by owner and repository returns, in storage order. */
  function Select(rows: seq<Row>, owner: string, repo: string): (found: seq<Row>)
    ensures |found| <= |rows|
    ensures forall x :: x in found <==> x in rows && Names(x, owner, repo)
    ensures found == [] <==> !Tracked(rows, owner, repo)
    decreases |rows|
  {
    if rows == [] then []
    else
      var rest := Select(rows[1..], owner, repo);
      assert Tracked(rows, owner, repo) <==> Names(rows[0], owner, repo) || Tracked(rows[1..], owner, repo) by {
        if Tracked(rows[1..], owner, repo) {
          var i :| 0 <= i < |rows[1..]| && Names(rows[1..][i], owner, repo);
          assert rows[i + 1] == rows[1..][i];
        }
        if Tracked(rows, owner, repo) && !Names(rows[0], owner, repo) {
          var i :| 0 <= i < |rows| && Names(rows[i], owner, repo);
          assert rows[1..][i - 1] == rows[i];
        }
      }
      assert forall x :: x in rows <==> x == rows[0] || x in rows[1..];
      (if Names(rows[0], owner, repo) then [rows[0]] else []) + rest
  }

  /** The table after deleting every row of this owner and repository, in storage order. */
  function Without(rows: seq<Row>, owner: string, repo: string): (kept: seq<Row>)
    ensures forall x :: x in kept <==> x in rows && !Names(x, owner, repo)
    ensures |kept| + |Select(rows, owner, repo)| == |rows|
    decreases |rows|
  {
    if rows == [] then []
    else
      var rest := Without(rows[1..], owner, repo);
      assert forall x :: x in rows <==> x == rows[0] || x in rows[1..];
      (if Names(rows[0], owner, repo) then [] else [rows[0]]) + rest
  }

  /**
   * The table after `UPDATE repo SET latest_commit = ?, latest_release = ?,
   * last_updated = ? WHERE owner = ? AND repo = ? AND website = ?`.
   */
  function Updated(rows: seq<Row>, commit: Option<string>, release: Option<string>, now: string,
                   owner: string, repo: string, website: Host): (after: seq<Row>)
    ensures |after| == |rows|
    ensures forall i :: 0 <= i < |rows| ==>
      after[i].owner == rows[i].owner && after[i].repo == rows[i].repo && after[i].website == rows[i].website
    ensures forall i :: 0 <= i < |rows| && HasKey(rows[i], owner, repo, website) ==>
      after[i].latestCommit == commit && after[i].latestRelease == release && after[i].lastUpdated == now
    ensures forall i :: 0 <= i < |rows| && !HasKey(rows[i], owner, repo, website) ==> after[i] == rows[i]
  {
    seq(|rows|, i requires 0 <= i < |rows| =>
      if HasKey(rows[i], owner, repo, website)
      then rows[i].(latestCommit := commit, latestRelease := release, lastUpdated := now)
      else rows[i])
  }

  /** The row `insert_repo` adds for a watch-list entry: release and commit are NULL. */
  function NewRow(e: Entry, now: string): Row {
    Row(e.owner, e.repo, None, None, now, e.host)
  }

  /** One iteration of the load loop: insert the entry unless its owner/repo is confirmed. */
  function LoadStep(rows: seq<Row>, e: Entry, now: string): seq<Row> {
    if Tracked(rows, e.owner, e.repo) then rows else rows + [NewRow(e, now)]
  }

  /** The table after the load loop has run over `entries` in order. */
  function LoadAll(rows: seq<Row>, entries: seq<Entry>, now: string): seq<Row>
    decreases |entries|
  {
    if entries == [] then rows else LoadAll(LoadStep(rows, entries[0], now), entries[1..], now)
  }

  class TrackerDb {
    /** Whether the `repo` table exists in the database file. */
    var hasTable: bool
    /** The rows of the `repo` table, in storage order. */
    var rows: seq<Row>

    ghost predicate Valid()
      reads this
    {
      hasTable || rows == []
    }

    constructor Connect(tableExists: bool, existing: seq<Row>)
      requires tableExists || existing == []
      ensures Valid()
      ensures hasTable == tableExists && rows == existing
    {
      hasTable := tableExists;
      rows := existing;
    }

    /** `confirm_table`: the `repo` table is listed in `sqlite_master`. */
    method ConfirmTable() returns (present: bool)
      ensures present == hasTable
    {
      present := hasTable;
    }

    /** `bootstrap_db`: creating the table fails when it already exists. */
    method BootstrapDb() returns (created: bool)
      requires Valid()
      modifies this
      ensures Valid()
      ensures created == !old(hasTable)
      ensures hasTable && rows == old(rows)
    {
      created := !hasTable;
      hasTable := true;
    }

    /**
     * `prepare_database`: an existing file is checked for the table and
     * bootstrapped if it lacks one; a missing file is created and bootstrapped.
     * The failure result is returned only when bootstrapping meets an existing
     * table, which the confirmation step rules out.
     */
    method PrepareDatabase(fileExists: bool) returns (ok: bool)
      requires Valid()
      requires !fileExists ==> !hasTable
      modifies this
      ensures Valid()
      ensures ok && hasTable && rows == old(rows)
    {
      if fileExists {
        var confirmed := ConfirmTable();
        if confirmed {
          return true;
        }
        ok := BootstrapDb();
        return ok;
      }
      ok := BootstrapDb();
    }

    /** `insert_repo` with `[owner, repo, now, website]`. */
    method InsertRepo(owner: string, repo: string, now: string, website: Host)
      requires hasTable
      modifies this
      ensures hasTable
      ensures rows == old(rows) + [Row(owner, repo, None, None, now, website)]
    {
      rows := rows + [Row(owner, repo, None, None, now, website)];
    }

    /** `update_tracker` with `[commit, release, now, owner, repo, website]`. */
    method UpdateTracker(commit: Option<string>, release: Option<string>, now: string,
                         owner: string, repo: string, website: Host)
      requires hasTable
      modifies this
      ensures hasTable
      ensures rows == Updated(old(rows), commit, release, now, owner, repo, website)
    {
      rows := Updated(rows, commit, release, now, owner, repo, website);
    }

    /** `delete_repo` with `[owner, repo]`. */
    method DeleteRepo(owner: string, repo: string)
      requires hasTable
      modifies this
      ensures hasTable
      ensures rows == Without(old(rows), owner, repo)
    {
      rows := Without(rows, owner, repo);
    }

    /** `confirm_repo`: some row names this owner and repository; the website is not compared. */
    method ConfirmRepo(owner: string, repo: string) returns (found: bool)
      requires hasTable
      ensures found <==> exists i :: 0 <= i < |rows| && rows[i].owner == owner && rows[i].repo == repo
    {
      var data := Select(rows, owner, repo);
      found := |data| != 0;
    }

    /** `read_repositories`: every row, in storage order. */
    method ReadRepositories() returns (repositories: seq<Row>)
      requires hasTable
      ensures repositories == rows
    {
      repositories := [];
      var i := 0;
      while i < |rows|
        invariant 0 <= i <= |rows|
        invariant repositories == rows[..i]
      {
        repositories := repositories + [rows[i]];
        i := i + 1;
      }
      assert rows[..i] == rows;
    }
  }

  // ---------------------------------------------------------------------------
  // Properties of the table operations

  /**
   * Lookup and delete work row by row in storage order: on a table stored as
   * two parts they give the results of the parts, concatenated. With the
   * one-row case of their definitions, this fixes both results completely
   * (every match, in order, with repetitions).
   */
  lemma {:induction false} SelectAppend(a: seq<Row>, b: seq<Row>, owner: string, repo: string)
    ensures Select(a + b, owner, repo) == Select(a, owner, repo) + Select(b, owner, repo)
    decreases |a|
  {
    if a == [] {
      assert a + b == b;
    } else {
      assert (a + b)[0] == a[0] && (a + b)[1..] == a[1..] + b;
      SelectAppend(a[1..], b, owner, repo);
      var head := if Names(a[0], owner, repo) then [a[0]] else [];
      AppendAssociates(head, Select(a[1..], owner, repo), Select(b, owner, repo));
    }
  }

  lemma {:induction false} WithoutAppend(a: seq<Row>, b: seq<Row>, owner: string, repo: string)
    ensures Without(a + b, owner, repo) == Without(a, owner, repo) + Without(b, owner, repo)
    decreases |a|
  {
    if a == [] {
      assert a + b == b;
    } else {
      assert (a + b)[0] == a[0] && (a + b)[1..] == a[1..] + b;
      WithoutAppend(a[1..], b, owner, repo);
      var head := if Names(a[0], owner, repo) then [] else [a[0]];
      AppendAssociates(head, Without(a[1..], owner, repo), Without(b, owner, repo));
    }
  }

  /** After an insert the pair is confirmed, and no other pair changes status. */
  lemma InsertConfirms(rows: seq<Row>, e: Entry, now: string, owner: string, repo: string)
    ensures Tracked(rows + [NewRow(e, now)], e.owner, e.repo)
    ensures (owner, repo) != (e.owner, e.repo) ==>
      (Tracked(rows + [NewRow(e, now)], owner, repo) <==> Tracked(rows, owner, repo))
  {
    var after := rows + [NewRow(e, now)];
    assert Names(after[|rows|], e.owner, e.repo);
    if Tracked(rows, owner, repo) {
      var i :| 0 <= i < |rows| && Names(rows[i], owner, repo);
      assert after[i] == rows[i];
    }
    if (owner, repo) != (e.owner, e.repo) && Tracked(after, owner, repo) {
      var i :| 0 <= i < |after| && Names(after[i], owner, repo);
      assert i < |rows| && rows[i] == after[i];
    }
  }

  /** After a delete the pair is no longer confirmed, and no other pair changes status. */
  lemma DeleteUnconfirms(rows: seq<Row>, owner: string, repo: string, other: string, otherRepo: string)
    ensures !Tracked(Without(rows, owner, repo), owner, repo)
    ensures (other, otherRepo) != (owner, repo) ==>
      (Tracked(Without(rows, owner, repo), other, otherRepo) <==> Tracked(rows, other, otherRepo))
  {
    var kept := Without(rows, owner, repo);
    if (other, otherRepo) != (owner, repo) {
      if Tracked(rows, other, otherRepo) {
        var i :| 0 <= i < |rows| && Names(rows[i], other, otherRepo);
        assert rows[i] in rows;
        assert rows[i] in kept;
        var j :| 0 <= j < |kept| && kept[j] == rows[i];
      }
      if Tracked(kept, other, otherRepo) {
        var i :| 0 <= i < |kept| && Names(kept[i], other, otherRepo);
        assert kept[i] in kept;
        var j :| 0 <= j < |rows| && rows[j] == kept[i];
      }
    }
  }

  /** An update that matches no row leaves the table as it was. */
  lemma UpdateWithoutMatch(rows: seq<Row>, commit: Option<string>, release: Option<string>, now: string,
                           owner: string, repo: string, website: Host)
    requires forall i :: 0 <= i < |rows| ==> !HasKey(rows[i], owner, repo, website)
    ensures Updated(rows, commit, release, now, owner, repo, website) == rows
  {
  }

  /** Repeating an update changes nothing more. */
  lemma UpdateIdempotent(rows: seq<Row>, commit: Option<string>, release: Option<string>, now: string,
                         owner: string, repo: string, website: Host)
    ensures Updated(Updated(rows, commit, release, now, owner, repo, website), commit, release, now, owner, repo, website)
         == Updated(rows, commit, release, now, owner, repo, website)
  {
  }

  /** An update neither adds nor removes confirmed pairs. */
  lemma UpdateKeepsConfirmed(rows: seq<Row>, commit: Option<string>, release: Option<string>, now: string,
                             owner: string, repo: string, website: Host, o: string, r: string)
    ensures Tracked(Updated(rows, commit, release, now, owner, repo, website), o, r) <==> Tracked(rows, o, r)
  {
    var after := Updated(rows, commit, release, now, owner, repo, website);
    if Tracked(rows, o, r) {
      var i :| 0 <= i < |rows| && Names(rows[i], o, r);
      assert Names(after[i], o, r);
    }
    if Tracked(after, o, r) {
      var i :| 0 <= i < |after| && Names(after[i], o, r);
      assert Names(rows[i], o, r);
    }
  }

  /** Insert, then update: the new row carries exactly the updated references. */
  lemma InsertThenUpdate(rows: seq<Row>, e: Entry, inserted: string, commit: Option<string>,
                         release: Option<string>, now: string)
    requires forall i :: 0 <= i < |rows| ==> !HasKey(rows[i], e.owner, e.repo, e.host)
    ensures Updated(rows + [NewRow(e, inserted)], commit, release, now, e.owner, e.repo, e.host)
         == rows + [Row(e.owner, e.repo, release, commit, now, e.host)]
  {
  }

  // ---------------------------------------------------------------------------
  // Properties of the load loop

  /** Loading only appends: every pre-existing row keeps its place and contents. */
  lemma {:induction false} LoadKeepsExisting(rows: seq<Row>, entries: seq<Entry>, now: string)
    ensures |rows| <= |LoadAll(rows, entries, now)|
    ensures LoadAll(rows, entries, now)[..|rows|] == rows
    decreases |entries|
  {
    if entries != [] {
      var next := LoadStep(rows, entries[0], now);
      LoadKeepsExisting(next, entries[1..], now);
      assert next[..|rows|] == rows;
      assert LoadAll(rows, entries, now)[..|rows|] == LoadAll(next, entries[1..], now)[..|next|][..|rows|];
    }
  }

  lemma ExtendingKeepsConfirmed(rows: seq<Row>, more: seq<Row>, owner: string, repo: string)
    ensures Tracked(rows, owner, repo) ==> Tracked(rows + more, owner, repo)
  {
    if Tracked(rows, owner, repo) {
      var i :| 0 <= i < |rows| && Names(rows[i], owner, repo);
      assert (rows + more)[i] == rows[i];
    }
  }

  lemma ConfirmedStaysConfirmed(rows: seq<Row>, entries: seq<Entry>, now: string, owner: string, repo: string)
    requires Tracked(rows, owner, repo)
    ensures Tracked(LoadAll(rows, entries, now), owner, repo)
  {
    LoadKeepsExisting(rows, entries, now);
    var i :| 0 <= i < |rows| && Names(rows[i], owner, repo);
    assert LoadAll(rows, entries, now)[i] == LoadAll(rows, entries, now)[..|rows|][i];
  }

  /** After loading, every watch-list entry is confirmed by owner and repository. */
  lemma {:induction false} LoadConfirmsAll(rows: seq<Row>, entries: seq<Entry>, now: string)
    ensures forall k :: 0 <= k < |entries| ==> Tracked(LoadAll(rows, entries, now), entries[k].owner, entries[k].repo)
    decreases |entries|
  {
    if entries != [] {
      var next := LoadStep(rows, entries[0], now);
      LoadConfirmsAll(next, entries[1..], now);
      InsertConfirms(rows, entries[0], now, entries[0].owner, entries[0].repo);
      ConfirmedStaysConfirmed(next, entries[1..], now, entries[0].owner, entries[0].repo);
      forall k | 1 <= k < |entries|
        ensures Tracked(LoadAll(rows, entries, now), entries[k].owner, entries[k].repo)
      {
        assert entries[k] == entries[1..][k - 1];
      }
    }
  }

  /** Loading entries that are all confirmed already inserts nothing. */
  lemma {:induction false} LoadConfirmedIsNoop(rows: seq<Row>, entries: seq<Entry>, now: string)
    requires forall k :: 0 <= k < |entries| ==> Tracked(rows, entries[k].owner, entries[k].repo)
    ensures LoadAll(rows, entries, now) == rows
    decreases |entries|
  {
    if entries != [] {
      assert LoadStep(rows, entries[0], now) == rows;
      forall k | 0 <= k < |entries[1..]| ensures Tracked(rows, entries[1..][k].owner, entries[1..][k].repo) {
        assert entries[1..][k] == entries[k + 1];
      }
      LoadConfirmedIsNoop(rows, entries[1..], now);
    }
  }

  /** Running the load a second time over the same watch list adds no rows. */
  lemma LoadIdempotent(rows: seq<Row>, entries: seq<Entry>, now: string, later: string)
    ensures LoadAll(LoadAll(rows, entries, now), entries, later) == LoadAll(rows, entries, now)
  {
    LoadConfirmsAll(rows, entries, now);
    LoadConfirmedIsNoop(LoadAll(rows, entries, now), entries, later);
  }

  /**
   * Every row the load adds has NULL release and commit, comes from a
   * watch-list entry, and names a pair that was not confirmed before.
   */
  lemma {:induction false} LoadAddsOnlyNew(rows: seq<Row>, entries: seq<Entry>, now: string)
    ensures forall k :: |rows| <= k < |LoadAll(rows, entries, now)| ==>
      var r := LoadAll(rows, entries, now)[k];
      r.latestRelease == None && r.latestCommit == None && r.lastUpdated == now &&
      !Tracked(rows, r.owner, r.repo) &&
      exists j :: 0 <= j < |entries| && NewRow(entries[j], now) == r
    decreases |entries|
  {
    if entries != [] {
      var next := LoadStep(rows, entries[0], now);
      var after := LoadAll(rows, entries, now);
      LoadAddsOnlyNew(next, entries[1..], now);
      LoadKeepsExisting(next, entries[1..], now);
      forall k | |rows| <= k < |after|
        ensures after[k].latestRelease == None && after[k].latestCommit == None && after[k].lastUpdated == now
        ensures !Tracked(rows, after[k].owner, after[k].repo)
        ensures exists j :: 0 <= j < |entries| && NewRow(entries[j], now) == after[k]
      {
        if k < |next| {
          assert after[k] == after[..|next|][k] == next[k];
          assert next[k] == NewRow(entries[0], now);
        } else {
          var j :| 0 <= j < |entries[1..]| && NewRow(entries[1..][j], now) == after[k];
          assert entries[j + 1] == entries[1..][j];
          ExtendingKeepsConfirmed(rows, next[|rows|..], after[k].owner, after[k].repo);
        }
      }
    }
  }

  /** The load never creates a second row for an owner and repository. */
  lemma {:induction false} LoadKeepsDistinct(rows: seq<Row>, entries: seq<Entry>, now: string)
    requires Distinct(rows)
    ensures Distinct(LoadAll(rows, entries, now))
    decreases |entries|
  {
    if entries != [] {
      var next := LoadStep(rows, entries[0], now);
      if !Tracked(rows, entries[0].owner, entries[0].repo) {
        forall i, j | 0 <= i < j < |next| ensures !Names(next[i], next[j].owner, next[j].repo) {
          if j == |rows| {
            assert !Names(rows[i], entries[0].owner, entries[0].repo);
          }
        }
      }
      LoadKeepsDistinct(next, entries[1..], now);
    }
  }
}
