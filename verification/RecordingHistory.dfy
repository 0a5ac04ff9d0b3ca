/**
  Every sequence of transactions on the recording tables.
 */
module RecordingHistory {
  import opened Endpoints
  import opened Options
  import opened RecordingTables
  import opened RecordingMerge
  import opened RecordingMergePlans

  /** A transaction, or a change of what campaigns and findings refer to. */
  datatype Transaction =
    | Upserted(session: Session)
    | FoundOrAppended(session: Session, newID: Id)
    | MergedGroups(request: MergeRequest, plan: seq<Group>)
    | Relinked(active: set<Id>, referenced: set<Id>)

  /** The tables after a transaction; one that fails is rolled back. */
  ghost function Apply(db: Db, t: Transaction): Db {
    match t
    case Upserted(session) => OrElse(Create(db, session.id, session), db)
    case FoundOrAppended(session, newID) =>
      (match Lookup(db.recordings, session.target)
       case Some(r) => Append(db, r, session)
       case None => OrElse(Create(db, newID, session), db))
    case MergedGroups(request, plan) =>
      if IsPlan(db, request, plan) then OrElse(MergeAll(db, request.origin, plan), db) else db
    case Relinked(active, referenced) => db.(active := active * referenced, referenced := referenced)
  }

  function OrElse(result: Option<Db>, db: Db): Db {
    match result
    case Some(d) => d
    case None => db
  }

  ghost function Run(db: Db, history: seq<Transaction>): Db {
    if history == [] then db else Apply(Run(db, history[..|history| - 1]), history[|history| - 1])
  }

  ghost predicate AllSurvive(before: Ledger, after: Ledger) {
    forall r :: Survives(before, after, r)
  }

  /** No exchange is lost or changed, and the exchanges of a recording stay together, in order. */
  ghost predicate Keeps(db: Db, ledger: Ledger, d: Db, after: Ledger) {
    && Books(d, after) && Counted(d, after)
    && |db.rows| <= |d.rows| && SameContents(db.rows, d.rows[..|db.rows|])
    && AllSurvive(ledger, after)
  }

  lemma InsertKeeps(ledger: Ledger, id: Id, more: seq<nat>)
    ensures id in ledger ==> AllSurvive(ledger, ledger[id := ledger[id] + more])
    ensures id !in ledger ==> AllSurvive(ledger, ledger[id := more])
  {
    var after := ledger[id := if id in ledger then ledger[id] + more else more];
    forall r ensures Survives(ledger, after, r) {
      if r in ledger {
        HoldsSelf(after, r, ledger[r]);
      }
    }
  }

  lemma CreateKeeps(db: Db, ledger: Ledger, id: Id, session: Session) returns (after: Ledger)
    requires Books(db, ledger) && Counted(db, ledger)
    ensures Keeps(db, ledger, OrElse(Create(db, id, session), db), after)
  {
    if Create(db, id, session).Some? {
      CreateKeepsBooks(db, ledger, id, session);
      after := ledger[id := Range(|db.rows|, |session.entries|)];
      InsertKeeps(ledger, id, Range(|db.rows|, |session.entries|));
    } else {
      after := ledger;
      ExtendsSelf(ledger);
    }
  }

  lemma ApplyKeeps(db: Db, ledger: Ledger, t: Transaction) returns (after: Ledger)
    requires Books(db, ledger) && Counted(db, ledger)
    ensures Keeps(db, ledger, Apply(db, t), after)
  {
    after := ledger;
    ExtendsSelf(ledger);
    match t
    case Upserted(session) =>
      after := CreateKeeps(db, ledger, session.id, session);
    case FoundOrAppended(session, newID) =>
      var found := Lookup(db.recordings, session.target);
      if found.Some? {
        AppendKeepsBooks(db, ledger, found.value, session);
        var more := Range(|db.rows|, |session.entries|);
        after := ledger[found.value := ledger[found.value] + more];
        InsertKeeps(ledger, found.value, more);
      } else {
        after := CreateKeeps(db, ledger, newID, session);
      }
    case MergedGroups(request, plan) =>
      if IsPlan(db, request, plan) && MergeAll(db, request.origin, plan).Some? {
        after := MergeKeepsOrder(db, request, plan, ledger);
        var d := MergeAll(db, request.origin, plan).value;
        assert d.rows[..|db.rows|] == d.rows;
      }
    case Relinked(_, _) =>
  }

  /** In every history sequence numbers stay dense, no exchange is lost, and none is taken out of its order. */
  lemma {:induction false} HistoryTheorem(db: Db, ledger: Ledger, history: seq<Transaction>) returns (after: Ledger)
    requires Books(db, ledger) && Counted(db, ledger)
    ensures Keeps(db, ledger, Run(db, history), after)
  {
    if history == [] {
      after := ledger;
      ExtendsSelf(ledger);
    } else {
      var n := |history| - 1;
      var middle := HistoryTheorem(db, ledger, history[..n]);
      after := ApplyKeeps(Run(db, history[..n]), middle, history[n]);
      forall r ensures Survives(ledger, after, r) {
        if r in ledger {
          assert Survives(ledger, middle, r);
          HoldsTransitive(middle, after, ledger[r]);
        }
      }
    }
  }

  // ---- What is stored ----

  /** The exchanges of all recordings. */
  function AllStored(rows: seq<Row>): multiset<Exchange> {
    if rows == [] then multiset{} else AllStored(rows[..|rows| - 1]) + multiset{rows[|rows| - 1].exchange}
  }

  /** A session is stored if its id and its endpoint are new, or if it can be appended. */
  predicate Accepts(db: Db, t: Transaction) {
    match t
    case Upserted(session) =>
      session.id !in db.recordings && forall r :: r in db.recordings ==> db.recordings[r].target != session.target
    case FoundOrAppended(session, newID) =>
      newID !in db.recordings || exists r :: r in db.recordings && db.recordings[r].target == session.target
    case _ => false
  }

  /** What a transaction stores. */
  function Added(db: Db, t: Transaction): multiset<Exchange> {
    if Accepts(db, t) then multiset(t.session.entries) else multiset{}
  }

  /** The exchanges of the sessions that are stored in a history. */
  ghost function AcceptedIn(db: Db, history: seq<Transaction>): multiset<Exchange> {
    if history == [] then multiset{}
    else
      var n := |history| - 1;
      AcceptedIn(db, history[..n]) + Added(Run(db, history[..n]), history[n])
  }

  lemma StoredSnoc(rows: seq<Row>, row: Row)
    ensures AllStored(rows + [row]) == AllStored(rows) + multiset{row.exchange}
  {
    assert (rows + [row])[..|rows|] == rows;
  }

  lemma InsertSnoc(rows: seq<Row>, r: Id, entries: seq<Exchange>, start: nat)
    requires entries != []
    ensures var n := |entries| - 1;
      Insert(rows, r, entries, start) == Insert(rows, r, entries[..n], start) + [Row(r, entries[n], start + n)]
  {
  }

  lemma {:induction false} StoredByInsert(rows: seq<Row>, r: Id, entries: seq<Exchange>, start: nat)
    ensures AllStored(Insert(rows, r, entries, start)) == AllStored(rows) + multiset(entries)
    decreases |entries|
  {
    if entries == [] {
      assert Insert(rows, r, entries, start) == rows;
    } else {
      var n := |entries| - 1;
      StoredByInsert(rows, r, entries[..n], start);
      InsertSnoc(rows, r, entries, start);
      StoredSnoc(Insert(rows, r, entries[..n], start), Row(r, entries[n], start + n));
      OneMoreEntry(AllStored(rows), entries);
    }
  }

  lemma OneMoreEntry(stored: multiset<Exchange>, entries: seq<Exchange>)
    requires entries != []
    ensures var n := |entries| - 1;
      stored + multiset(entries) == stored + multiset(entries[..n]) + multiset{entries[n]}
  {
    assert entries == entries[..|entries| - 1] + [entries[|entries| - 1]];
  }

  lemma {:induction false} StoredBySame(before: seq<Row>, after: seq<Row>)
    requires SameContents(before, after)
    ensures AllStored(after) == AllStored(before)
  {
    if before != [] {
      StoredBySame(before[..|before| - 1], after[..|after| - 1]);
    }
  }

  lemma CreateStores(db: Db, id: Id, session: Session)
    ensures AllStored(OrElse(Create(db, id, session), db).rows)
      == AllStored(db.rows) + if Create(db, id, session).Some? then multiset(session.entries) else multiset{}
  {
    StoredByInsert(db.rows, id, session.entries, 0);
  }

  lemma UpsertStores(db: Db, session: Session)
    ensures AllStored(Apply(db, Upserted(session)).rows) == AllStored(db.rows) + Added(db, Upserted(session))
  {
    CreateStores(db, session.id, session);
  }

  lemma FindOrAppendStores(db: Db, session: Session, newID: Id)
    ensures AllStored(Apply(db, FoundOrAppended(session, newID)).rows)
      == AllStored(db.rows) + Added(db, FoundOrAppended(session, newID))
  {
    var found := Lookup(db.recordings, session.target);
    if found.Some? {
      StoredByInsert(db.rows, found.value, session.entries, db.recordings[found.value].entryCount);
    } else {
      CreateStores(db, newID, session);
    }
  }

  lemma MergeStores(db: Db, ledger: Ledger, request: MergeRequest, plan: seq<Group>)
    requires Books(db, ledger) && Counted(db, ledger)
    ensures AllStored(Apply(db, MergedGroups(request, plan)).rows) == AllStored(db.rows)
  {
    if IsPlan(db, request, plan) && MergeAll(db, request.origin, plan).Some? {
      var _ := PlanKeeps(db, request, ledger, plan);
      StoredBySame(db.rows, MergeAll(db, request.origin, plan).value.rows);
    }
  }

  lemma ApplyStores(db: Db, ledger: Ledger, t: Transaction)
    requires Books(db, ledger) && Counted(db, ledger)
    ensures AllStored(Apply(db, t).rows) == AllStored(db.rows) + Added(db, t)
  {
    if t.Upserted? {
      UpsertStores(db, t.session);
    } else if t.FoundOrAppended? {
      FindOrAppendStores(db, t.session, t.newID);
    } else if t.MergedGroups? {
      MergeStores(db, ledger, t.request, t.plan);
    }
  }

  /** In every history what is stored is what was stored first and what was accepted, each as often. */
  lemma {:induction false} StoredTheorem(db: Db, history: seq<Transaction>)
    requires Dense(db)
    ensures AllStored(Run(db, history).rows) == AllStored(db.rows) + AcceptedIn(db, history)
  {
    if history != [] {
      var n := |history| - 1;
      StoredTheorem(db, history[..n]);
      var ledger :| Books(db, ledger) && Counted(db, ledger);
      var middle := HistoryTheorem(db, ledger, history[..n]);
      ApplyStores(Run(db, history[..n]), middle, history[n]);
    }
  }

  /** From empty tables, entry_count is the number of rows and sequence numbers run from 0, in every recording. */
  lemma HistoryIsDense(history: seq<Transaction>)
    ensures Dense(Run(Db(map[], [], {}, {}), history))
  {
    var empty: Ledger := map[];
    var _ := HistoryTheorem(Db(map[], [], {}, {}), empty, history);
  }
}
