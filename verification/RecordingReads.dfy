/**
  What a reader of internal/db/recordings.go sees of the recording tables.
 */
module RecordingReads {
  import opened Endpoints
  import opened Options
  import opened RecordingTables

  /** The rows of the list hold these exchanges. */
  ghost predicate Shows(rows: seq<Row>, order: seq<nat>, entries: seq<Exchange>) {
    |order| == |entries| && forall k | 0 <= k < |order| :: order[k] < |rows| && rows[order[k]].exchange == entries[k]
  }

  /** SELECT ... WHERE recording_id = r ORDER BY seq_order gives these exchanges. */
  ghost predicate Reads(rows: seq<Row>, r: Id, entries: seq<Exchange>) {
    exists order :: Lists(rows, r, order) && Shows(rows, order, entries)
  }

  /** The entries of a session are read behind what was read before. */
  lemma InsertReads(rows: seq<Row>, r: Id, before: seq<Exchange>, entries: seq<Exchange>)
    requires Reads(rows, r, before)
    ensures Reads(Insert(rows, r, entries, |before|), r, before + entries)
  {
    var order :| Lists(rows, r, order) && Shows(rows, order, before);
    InsertLists(rows, r, order, entries);
    assert Shows(Insert(rows, r, entries, |before|), order + Range(|rows|, |entries|), before + entries);
  }

  /** The other recordings are read as before. */
  lemma InsertReadsOthers(rows: seq<Row>, r: Id, entries: seq<Exchange>, start: nat, s: Id, read: seq<Exchange>)
    requires s != r
    ensures Reads(Insert(rows, r, entries, start), s, read) <==> Reads(rows, s, read)
  {
    var after := Insert(rows, r, entries, start);
    if Reads(rows, s, read) {
      var order :| Lists(rows, s, order) && Shows(rows, order, read);
      InsertListsOthers(rows, r, entries, start, s, order);
      assert Shows(after, order, read);
    }
    if Reads(after, s, read) {
      var order :| Lists(after, s, order) && Shows(after, order, read);
      forall k | 0 <= k < |order| ensures order[k] < |rows| {
        assert after[order[k]].recordingID == s;
      }
      assert forall i | 0 <= i < |rows| :: rows[i] == after[i];
      assert Lists(rows, s, order) && Shows(rows, order, read);
    }
  }

  /** What the insertion of a session changes for a reader. */
  ghost predicate Gains(before: seq<Row>, after: seq<Row>, r: Id, entries: seq<Exchange>) {
    && (forall read | Reads(before, r, read) :: Reads(after, r, read + entries))
    && (forall s, read | s != r :: Reads(after, s, read) <==> Reads(before, s, read))
  }

  lemma InsertGains(rows: seq<Row>, r: Id, entries: seq<Exchange>, start: nat)
    requires forall read | Reads(rows, r, read) :: |read| == start
    ensures Gains(rows, Insert(rows, r, entries, start), r, entries)
  {
    forall read | Reads(rows, r, read) ensures Reads(Insert(rows, r, entries, start), r, read + entries) {
      InsertReads(rows, r, read, entries);
    }
    forall s, read | s != r ensures Reads(Insert(rows, r, entries, start), s, read) <==> Reads(rows, s, read) {
      InsertReadsOthers(rows, r, entries, start, s, read);
    }
  }

  /** What is not a recording has no exchanges. */
  lemma NothingToRead(db: Db, r: Id)
    requires Dense(db) && r !in db.recordings
    ensures Reads(db.rows, r, []) && forall read | Reads(db.rows, r, read) :: read == []
  {
    assert Lists(db.rows, r, []) && Shows(db.rows, [], []);
    forall read | Reads(db.rows, r, read) ensures read == [] {
      var order :| Lists(db.rows, r, order) && Shows(db.rows, order, read);
      CountOfList(db.rows, r, order);
      assert RowsOf(db.rows, r) == {};
    }
  }

  /** As many exchanges are read as the recording says. */
  lemma ReadCount(db: Db, r: Id, read: seq<Exchange>)
    requires Dense(db) && r in db.recordings && Reads(db.rows, r, read)
    ensures |read| == db.recordings[r].entryCount
  {
    var ledger :| Books(db, ledger) && Counted(db, ledger);
    var order :| Lists(db.rows, r, order) && Shows(db.rows, order, read);
    CountOfList(db.rows, r, order);
    CountOfList(db.rows, r, ledger[r]);
  }

  lemma CreateGains(db: Db, id: Id, session: Session)
    requires Dense(db) && Create(db, id, session).Some?
    ensures Gains(db.rows, Create(db, id, session).value.rows, id, session.entries)
    ensures Reads(Create(db, id, session).value.rows, id, session.entries)
  {
    NothingToRead(db, id);
    InsertGains(db.rows, id, session.entries, 0);
    assert [] + session.entries == session.entries;
  }

  lemma AppendGains(db: Db, r: Id, session: Session)
    requires Dense(db) && r in db.recordings
    ensures Gains(db.rows, Append(db, r, session).rows, r, session.entries)
  {
    forall read | Reads(db.rows, r, read) ensures |read| == db.recordings[r].entryCount {
      ReadCount(db, r, read);
    }
    InsertGains(db.rows, r, session.entries, db.recordings[r].entryCount);
  }

  /** Every recording can be read, with as many exchanges as it says. */
  lemma Readable(db: Db, r: Id) returns (read: seq<Exchange>)
    requires Dense(db) && r in db.recordings
    ensures Reads(db.rows, r, read) && |read| == db.recordings[r].entryCount
  {
    var ledger :| Books(db, ledger) && Counted(db, ledger);
    var order := ledger[r];
    read := seq(|order|, k requires 0 <= k < |order| && order[k] < |db.rows| => db.rows[order[k]].exchange);
    assert Shows(db.rows, order, read);
  }
}
