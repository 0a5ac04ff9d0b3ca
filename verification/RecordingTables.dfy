/**
  The two tables of internal/db/recordings.go, and its transactions as functions
  on their values.

  Rows of the exchanges table are never inserted in between and only deleted with
  their recording, so a row is identified by its index.  A ledger lists, for each
  recording, the indices of its rows in the order of their sequence numbers: that a
  recording has such a list at all says that its sequence numbers are dense.
 */
module RecordingTables {
  import opened Endpoints
  import opened Options

  type Id = string

  datatype Target = Target(origin: Origin, path: string)

  datatype Exchange = Exchange(requestID: string, content: string)

  datatype Recording = Recording(target: Target, createdAt: int, entryCount: nat)

  datatype Row = Row(recordingID: Id, exchange: Exchange, seqOrder: nat)

  /**
    The tables.  active holds the recordings linked to a campaign whose status is
    RUNNING or STARTING, referenced those that any campaign or finding refers to.
   */
  datatype Db = Db(recordings: map<Id, Recording>, rows: seq<Row>, active: set<Id>, referenced: set<Id>)

  // ---- Invariants ----

  /** order lists the rows of r: row order[k] has sequence number k, and there is no other row. */
  ghost predicate Lists(rows: seq<Row>, r: Id, order: seq<nat>) {
    && (forall k | 0 <= k < |order| ::
          order[k] < |rows| && rows[order[k]].recordingID == r && rows[order[k]].seqOrder == k)
    && (forall i | 0 <= i < |rows| && rows[i].recordingID == r ::
          rows[i].seqOrder < |order| && order[rows[i].seqOrder] == i)
  }

  type Ledger = map<Id, seq<nat>>

  /** The unique index on the endpoint key. */
  ghost predicate UniqueTargets(recordings: map<Id, Recording>) {
    forall r, s | r in recordings && s in recordings && recordings[r].target == recordings[s].target :: r == s
  }

  ghost predicate Books(db: Db, ledger: Ledger) {
    && ledger.Keys == db.recordings.Keys
    && UniqueTargets(db.recordings)
    && (forall r | r in ledger :: Lists(db.rows, r, ledger[r]))
    && (forall i | 0 <= i < |db.rows| :: db.rows[i].recordingID in db.recordings)
    && db.active <= db.referenced
  }

  ghost predicate Counted(db: Db, ledger: Ledger) {
    forall r | r in db.recordings && r in ledger :: db.recordings[r].entryCount == |ledger[r]|
  }

  /** Sequence numbers run from 0 to entry_count - 1 in every recording. */
  ghost predicate Dense(db: Db) {
    exists ledger :: Books(db, ledger) && Counted(db, ledger)
  }

  // ---- SQL aggregates and updates ----

  /** MAX(seq_order) + 1 over the rows of r, or 0 if there are none. */
  function NextSeq(rows: seq<Row>, r: Id): nat {
    if rows == [] then 0
    else
      var last, before := rows[|rows| - 1], NextSeq(rows[..|rows| - 1], r);
      if last.recordingID == r && last.seqOrder >= before then last.seqOrder + 1 else before
  }

  lemma {:induction false} NextSeqBounds(rows: seq<Row>, r: Id)
    ensures forall i | 0 <= i < |rows| && rows[i].recordingID == r :: rows[i].seqOrder < NextSeq(rows, r)
    ensures NextSeq(rows, r) > 0 ==>
      exists i :: 0 <= i < |rows| && rows[i].recordingID == r && rows[i].seqOrder == NextSeq(rows, r) - 1
  {
    if rows != [] {
      var n := |rows| - 1;
      NextSeqBounds(rows[..n], r);
      assert forall i | 0 <= i < n :: rows[i] == rows[..n][i];
      assert rows[n] == rows[|rows| - 1];
    }
  }

  /** With dense numbers the next one is the length of the list. */
  lemma NextSeqOfList(rows: seq<Row>, r: Id, order: seq<nat>)
    requires Lists(rows, r, order)
    ensures NextSeq(rows, r) == |order|
  {
    NextSeqBounds(rows, r);
    if |order| > 0 {
      assert rows[order[|order| - 1]].seqOrder == |order| - 1;
    }
  }

  /** The rows of r; COUNT(*) is their number. */
  function RowsOf(rows: seq<Row>, r: Id): set<nat> {
    set i | 0 <= i < |rows| && rows[i].recordingID == r
  }

  lemma {:induction false} DistinctSize(order: seq<nat>, s: set<nat>)
    requires forall i, j | 0 <= i < j < |order| :: order[i] != order[j]
    requires forall x :: x in s <==> x in order
    ensures |s| == |order|
  {
    if order == [] {
      assert s == {};
    } else {
      var n := |order| - 1;
      var x, rest := order[n], order[..n];
      assert order == rest + [x];
      DistinctSize(rest, s - {x});
    }
  }

  lemma CountOfList(rows: seq<Row>, r: Id, order: seq<nat>)
    requires Lists(rows, r, order)
    ensures |RowsOf(rows, r)| == |order|
  {
    DistinctSize(order, RowsOf(rows, r));
  }

  /** UPDATE exchanges SET recording_id = keeper, seq_order = seq_order + base WHERE recording_id = source. */
  function Move(rows: seq<Row>, source: Id, keeper: Id, base: nat): seq<Row> {
    seq(|rows|, i requires 0 <= i < |rows| =>
      if rows[i].recordingID == source then rows[i].(recordingID := keeper, seqOrder := rows[i].seqOrder + base)
      else rows[i])
  }

  /** The rows that are left when those of r are deleted. */
  function RowsWithout(rows: seq<Row>, r: Id): seq<Row> {
    if rows == [] then []
    else
      var last := rows[|rows| - 1];
      RowsWithout(rows[..|rows| - 1], r) + if last.recordingID == r then [] else [last]
  }

  lemma {:induction false} NothingToDelete(rows: seq<Row>, r: Id)
    requires forall i | 0 <= i < |rows| :: rows[i].recordingID != r
    ensures RowsWithout(rows, r) == rows
  {
    if rows != [] {
      NothingToDelete(rows[..|rows| - 1], r);
    }
  }

  /** DELETE FROM recordings, which cascades to the exchanges. */
  function Delete(db: Db, r: Id): Db {
    db.(recordings := db.recordings - {r}, rows := RowsWithout(db.rows, r))
  }

  /** INSERT of the entries of a session, numbered from start. */
  function Insert(rows: seq<Row>, r: Id, entries: seq<Exchange>, start: nat): seq<Row> {
    rows + seq(|entries|, i requires 0 <= i < |entries| => Row(r, entries[i], start + i))
  }

  function Range(start: nat, n: nat): seq<nat> {
    seq(n, i requires 0 <= i < n => start + i)
  }

  /** The entry with this target, if any. */
  ghost function Lookup(recordings: map<Id, Recording>, target: Target): (found: Option<Id>)
    ensures found.Some? ==> found.value in recordings && recordings[found.value].target == target
    ensures found == None ==> forall r | r in recordings :: recordings[r].target != target
  {
    if exists r :: r in recordings && recordings[r].target == target then
      var r :| r in recordings && recordings[r].target == target;
      Some(r)
    else None
  }

  // ---- Upsert and FindOrAppend ----

  datatype Session = Session(id: Id, target: Target, createdAt: int, entries: seq<Exchange>)

  /** A new recording, or None if its key or its endpoint is taken. */
  ghost function Create(db: Db, id: Id, session: Session): Option<Db> {
    if id in db.recordings || Lookup(db.recordings, session.target).Some? then None
    else
      var recording := Recording(session.target, session.createdAt, |session.entries|);
      Some(db.(recordings := db.recordings[id := recording], rows := Insert(db.rows, id, session.entries, 0)))
  }

  /** The entries of a session behind those of recording r. */
  ghost function Append(db: Db, r: Id, session: Session): Db
    requires r in db.recordings
  {
    var was := db.recordings[r];
    var created := if session.createdAt > was.createdAt then session.createdAt else was.createdAt;
    db.(recordings := db.recordings[r := was.(entryCount := was.entryCount + |session.entries|, createdAt := created)],
        rows := Insert(db.rows, r, session.entries, was.entryCount))
  }

  lemma InsertLists(rows: seq<Row>, r: Id, order: seq<nat>, entries: seq<Exchange>)
    requires Lists(rows, r, order)
    ensures Lists(Insert(rows, r, entries, |order|), r, order + Range(|rows|, |entries|))
  {
  }

  lemma InsertListsOthers(rows: seq<Row>, r: Id, entries: seq<Exchange>, start: nat, s: Id, order: seq<nat>)
    requires Lists(rows, s, order) && s != r
    ensures Lists(Insert(rows, r, entries, start), s, order)
  {
  }

  lemma CreateKeepsBooks(db: Db, ledger: Ledger, id: Id, session: Session)
    requires Books(db, ledger) && Counted(db, ledger) && Create(db, id, session).Some?
    ensures var d := Create(db, id, session).value;
      var after := ledger[id := Range(|db.rows|, |session.entries|)];
      Books(d, after) && Counted(d, after)
  {
    var d := Create(db, id, session).value;
    var after := ledger[id := Range(|db.rows|, |session.entries|)];
    InsertLists(db.rows, id, [], session.entries);
    assert [] + Range(|db.rows|, |session.entries|) == Range(|db.rows|, |session.entries|);
    forall r | r in after ensures Lists(d.rows, r, after[r]) {
      if r != id {
        InsertListsOthers(db.rows, id, session.entries, 0, r, ledger[r]);
      }
    }
  }

  lemma AppendKeepsBooks(db: Db, ledger: Ledger, r: Id, session: Session)
    requires Books(db, ledger) && Counted(db, ledger) && r in db.recordings
    ensures var d := Append(db, r, session);
      var after := ledger[r := ledger[r] + Range(|db.rows|, |session.entries|)];
      Books(d, after) && Counted(d, after)
  {
    var d := Append(db, r, session);
    var after := ledger[r := ledger[r] + Range(|db.rows|, |session.entries|)];
    InsertLists(db.rows, r, ledger[r], session.entries);
    forall s | s in after ensures Lists(d.rows, s, after[s]) {
      if s != r {
        InsertListsOthers(db.rows, r, session.entries, |ledger[r]|, s, ledger[s]);
      }
    }
  }
}
