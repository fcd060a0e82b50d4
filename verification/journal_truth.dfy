/**
 What the journal's callers are told and what becomes of stored proofs, over every run,
 stale intents included: an ending is the one the chain gave, and a proof that is being
 submitted leaves the store only when its evidence is on chain.
 */
module JournalTruth {
  import opened Wrappers
  import opened ProofStore
  import opened Journal

  /** Transaction `h` is the signer's and covers every ID of the operation. */
  ghost predicate Backed(txs: map<Hash, Tx>, s: Signer, op: Op, h: Hash) {
    h in txs && txs[h].signer == s && txs[h].op.kind == op.kind && IdSet(op.ids) <= IdSet(txs[h].op.ids)
  }

  ghost predicate PcTrue(armed: map<Signer, Op>, txs: map<Hash, Tx>, accepted: set<Mark>, s: Signer, p: Pc) {
    match p
    case Ready(op) => true
    case Submitting(op, attempt, running, sent) =>
      && (running && s in armed ==> armed[s] == op)
      && (sent.Some? ==> sent.value in txs && txs[sent.value].signer == s && txs[sent.value].op == op)
    case Polling(op, h) => Backed(txs, s, op, h)
    case Resolved(op, how) =>
      match how
      case Success => Accepts(accepted, s, op)
      case FailedTx(h) => Backed(txs, s, op, h) && txs[h].fate == Failed
      case NotIncluded => true
  }

  ghost predicate PcsTrue(w: World) {
    forall s :: s in w.pc ==> PcTrue(w.armed, w.txs, w.accepted, s, w.pc[s]) && Owns(w.authority, s, w.pc[s].op)
  }

  /** A committed transaction is evidence for everything in it. */
  ghost predicate CommitsTrue(txs: map<Hash, Tx>, accepted: set<Mark>) {
    forall h :: h in txs && txs[h].fate == Committed ==> Accepts(accepted, txs[h].signer, txs[h].op)
  }

  ghost predicate MarkersTrue(markers: map<Signer, Marker>, txs: map<Hash, Tx>) {
    forall s :: s in markers && markers[s].hash.Some? ==> Backed(txs, s, markers[s].op, markers[s].hash.value)
  }

  /** The hash of a record is that of a transaction by the session's own signer that proves the session. */
  ghost predicate RecordTrue(authority: map<Id, Signer>, txs: map<Hash, Tx>, id: Id, r: Record) {
    r.hash.Some? ==>
      && r.hash.value in txs && txs[r.hash.value].op.kind == Retrieval && id in IdSet(txs[r.hash.value].op.ids)
      && id in authority && authority[id] == txs[r.hash.value].signer
  }

  ghost predicate RecordsTrue(authority: map<Id, Signer>, txs: map<Hash, Tx>, records: map<Id, Record>) {
    forall id :: id in records ==> RecordTrue(authority, txs, id, records[id])
  }

  ghost predicate Truth(w: World) {
    && PcsTrue(w) && CommitsTrue(w.txs, w.accepted) && MarkersTrue(w.db.markers, w.txs)
    && RecordsTrue(w.authority, w.txs, w.db.records)
  }

  lemma InitTruth(authority: map<Id, Signer>)
    ensures Truth(Init(authority))
  {
  }

  // The store.

  /** How one event may change one stored record. */
  ghost predicate RecordStep(before: map<Id, Record>, after: map<Id, Record>, id: Id, h: Option<Hash>) {
    id in before && id in after ==>
      && after[id].statement == before[id].statement
      && (after[id].hash.Some? ==> after[id].hash == before[id].hash || after[id].hash == h)
  }

  lemma DurableRecords(db: Db, op: Op, u: Update, remove: bool, c: MarkerChange, id: Id)
    requires Durable(db, op, u, remove, c).Some?
    ensures var next := Durable(db, op, u, remove, c).value;
            && RecordStep(db.records, next.records, id, if u.RecordHash? then Some(u.h) else None)
            && (id in next.records ==> id in db.records)
            && (id in db.records && id !in next.records ==> remove && id in IdSet(RecordIds(op)))
            && (id in db.records && id !in IdSet(RecordIds(op)) ==> id in next.records && next.records[id] == db.records[id])
            && ChangeMarker(db.markers, c) == Some(next.markers)
  {
    hide Durable, IdSet, ChangeMarker;
    DurableShape(db, op, u, remove, c);
    RewrittenFollows(db.records, IdSet(RecordIds(op)), u, remove);
  }

  lemma OnlyFrozenRecords(op: Op, id: Id)
    ensures id in IdSet(RecordIds(op)) <==> op.kind == Retrieval && id in IdSet(op.ids)
  {
  }

  /** What settling an operation does to one record. */
  lemma FinishRecords(db: Db, s: Signer, op: Op, how: Ending, public: bool, id: Id)
    requires FinishDb(db, s, op, how, public).Some?
    ensures var next := FinishDb(db, s, op, how, public).value;
            && RecordStep(db.records, next.records, id, None) && (id in next.records ==> id in db.records)
            && (id in db.records && id !in next.records ==> how == Success && op.kind == Retrieval && id in IdSet(op.ids))
            && ClearMarker(db.markers, s, op) == Some(next.markers)
  {
    hide Durable, IdSet, HashRecorded, ClearMarker;
    OnlyFrozenRecords(op, id);
    match how
    case Success => DurableRecords(db, op, Keep, true, Clear(s, op), id);
    case NotIncluded => DurableRecords(db, op, Withdraw, false, Clear(s, op), id);
    case FailedTx(h) =>
      if public || op.kind != Retrieval { DurableRecords(db, op, Keep, false, Clear(s, op), id); }
      else { DurableRecords(db, op, Reset, false, ClearHashed(s, op, h), id); }
  }

  /** The hash that an event writes into the store. */
  ghost function Writes(w: World, e: Event): Option<Hash> {
    if e.SaveHash? && e.s in w.pc && w.pc[e.s].Submitting? then w.pc[e.s].sent else None
  }

  /** What any event does to one record: it keeps its statement, and only a completed or an idle one goes away. */
  lemma StoreStep(w: World, e: Event, id: Id)
    requires Enabled(w, e)
    ensures StoreTrue(w, Apply(w, e), e, id)
  {
    hide Enabled, Apply, Gone;
    if e.Persist? || e.SaveHash? || e.Finish? {
      CallerStores(w, e, id);
    } else if e.Reconcile? || e.Serve? || e.Cleanup? {
      OthersStore(w, e, id);
    } else {
      NobodyStores(w, e);
    }
  }

  ghost predicate StoreTrue(w: World, u: World, e: Event, id: Id) {
    && RecordStep(w.db.records, u.db.records, id, Writes(w, e))
    && (id in u.db.records && id !in w.db.records ==> e.Serve? && e.id == id && u.db.records[id] == Record(e.statement, false, None))
    && (id in w.db.records && id !in u.db.records ==> Gone(w, e, id))
  }

  lemma NobodyStores(w: World, e: Event)
    requires Enabled(w, e) && !(e.Persist? || e.SaveHash? || e.Finish? || e.Reconcile? || e.Serve? || e.Cleanup?)
    ensures Apply(w, e).db == w.db
  {
    hide Durable, Accepts, Completed, Selected, Submittable, Owns, Marks;
  }

  lemma CallerStores(w: World, e: Event, id: Id)
    requires Enabled(w, e) && (e.Persist? || e.SaveHash? || e.Finish?)
    ensures StoreTrue(w, Apply(w, e), e, id)
  {
    hide Durable, FinishDb, IdSet, Submittable, ClearMarker, ChangeMarker;
    match e
    case Persist(s) => DurableRecords(w.db, w.pc[s].op, Submit, false, Claim(s, Marker(w.pc[s].op, None)), id);
    case SaveHash(s) => DurableRecords(w.db, w.pc[s].op, RecordHash(w.pc[s].sent.value), false, Claim(s, Marker(w.pc[s].op, w.pc[s].sent)), id);
    case Finish(s, public) =>
      if FinishDb(w.db, s, w.pc[s].op, w.pc[s].how, public).Some? { FinishRecords(w.db, s, w.pc[s].op, w.pc[s].how, public, id); }
  }

  lemma OthersStore(w: World, e: Event, id: Id)
    requires Enabled(w, e) && (e.Reconcile? || e.Serve? || e.Cleanup?)
    ensures StoreTrue(w, Apply(w, e), e, id)
  {
    hide IdSet, Accepts, Completed, Owns, Store, ClearMarker;
    match e
    case Reconcile(s, op) => OnlyFrozenRecords(op, id);
    case Serve(served, statement) => StoreOthers(w.db, served, statement, id);
    case Cleanup(_) =>
  }

  lemma StoreOthers(db: Db, id: Id, statement: string, other: Id)
    requires Store(db, id, statement).Some?
    ensures var next := Store(db, id, statement).value;
            && (other in db.records ==> other in next.records && next.records[other] == db.records[other])
            && (other in next.records && other !in db.records ==> other == id && next.records[other] == Record(statement, false, None))
  {
  }

  /** The three ways a record goes away: its caller was told of success, its sessions are complete, or it is idle. */
  ghost predicate Gone(w: World, e: Event, id: Id) {
    || (e.Finish? && e.s in w.pc && w.pc[e.s].Resolved? && w.pc[e.s].how == Success && w.pc[e.s].op.kind == Retrieval && id in IdSet(w.pc[e.s].op.ids))
    || (e.Reconcile? && e.op.kind == Retrieval && Completed(w, e.s, e.op) && id in IdSet(e.op.ids))
    || (e == Cleanup(id) && id in w.db.records && !w.db.records[id].submitting && w.db.records[id].hash == None)
  }

  /** How any event may change one marker. */
  lemma MarkerStep(w: World, e: Event, s: Signer)
    requires Enabled(w, e)
    ensures var u := Apply(w, e);
            s in u.db.markers ==>
              || (s in w.db.markers && u.db.markers[s] == w.db.markers[s])
              || (e == Persist(s) && u.db.markers[s].hash == None)
              || (e == SaveHash(s) && u.db.markers[s] == Marker(w.pc[s].op, w.pc[s].sent))
  {
    if e.Persist? || e.SaveHash? {
      ClaimStep(w, e, s);
    } else {
      OtherMarkers(w, e, s);
    }
  }

  lemma ClaimStep(w: World, e: Event, s: Signer)
    requires Enabled(w, e) && (e.Persist? || e.SaveHash?)
    ensures var u := Apply(w, e);
            s in u.db.markers ==>
              || (s in w.db.markers && u.db.markers[s] == w.db.markers[s])
              || (e == Persist(s) && u.db.markers[s].hash == None)
              || (e == SaveHash(s) && u.db.markers[s] == Marker(w.pc[s].op, w.pc[s].sent))
  {
    hide Durable, IdSet, Submittable, Rewritten, ValidOp;
    match e
    case Persist(t) => DurableShape(w.db, w.pc[t].op, Submit, false, Claim(t, Marker(w.pc[t].op, None)));
    case SaveHash(t) => DurableShape(w.db, w.pc[t].op, RecordHash(w.pc[t].sent.value), false, Claim(t, Marker(w.pc[t].op, w.pc[t].sent)));
  }

  lemma OtherMarkers(w: World, e: Event, s: Signer)
    requires Enabled(w, e) && !e.Persist? && !e.SaveHash?
    ensures s in Apply(w, e).db.markers ==> s in w.db.markers && Apply(w, e).db.markers[s] == w.db.markers[s]
  {
    if e.Finish? || e.Reconcile? || e.Serve? || e.Cleanup? {
      hide FinishDb, IdSet, Accepts, Completed, Owns, Store;
      match e
      case Finish(t, public) => FinishKeepsOthers(w, t, public, s);
      case Reconcile(t, op) => ReconcileKeepsOthers(w, t, op, s);
      case Serve(id, statement) => StoreGranted(w.db, id, statement);
      case Cleanup(_) =>
    } else {
      hide Enabled, Apply;
      NobodyStores(w, e);
    }
  }

  // The chain.

  /** Transactions keep their signer and operation, and a settled one its fate. */
  lemma TxStep(w: World, e: Event, h: Hash)
    requires Enabled(w, e) && h in w.txs
    ensures var u := Apply(w, e);
            && h in u.txs && u.txs[h].signer == w.txs[h].signer && u.txs[h].op == w.txs[h].op
            && (w.txs[h].fate != InFlight ==> u.txs[h].fate == w.txs[h].fate)
            && u.authority == w.authority && w.accepted <= u.accepted
  {
    hide Durable, FinishDb, ReconcileDb, Accepts, Completed, Selected, Submittable, Owns, Marks, Store;
  }

  lemma Grown(before: set<Mark>, after: set<Mark>, s: Signer, op: Op)
    requires before <= after && Accepts(before, s, op)
    ensures Accepts(after, s, op)
  {
  }

  lemma BackedStays(w: World, e: Event, s: Signer, op: Op, h: Hash)
    requires Enabled(w, e) && Backed(w.txs, s, op, h)
    ensures Backed(Apply(w, e).txs, s, op, h)
  {
    hide Enabled, Apply, IdSet;
    TxStep(w, e, h);
  }

  lemma CommitsStay(w: World, e: Event)
    requires Enabled(w, e) && CommitsTrue(w.txs, w.accepted)
    ensures CommitsTrue(Apply(w, e).txs, Apply(w, e).accepted)
  {
    hide Durable, FinishDb, ReconcileDb, Accepts, Completed, Selected, Submittable, Owns, Store, Marks;
    var u := Apply(w, e);
    forall h | h in u.txs && u.txs[h].fate == Committed
      ensures Accepts(u.accepted, u.txs[h].signer, u.txs[h].op)
    {
      if h in w.txs && w.txs[h].fate == Committed {
        TxStep(w, e, h);
        Grown(w.accepted, u.accepted, u.txs[h].signer, u.txs[h].op);
      } else {
        MarksAccept(w.accepted, w.txs[h]);
      }
    }
  }

  lemma MarksAccept(accepted: set<Mark>, tx: Tx)
    ensures Accepts(accepted + Marks(tx), tx.signer, tx.op)
  {
    forall i | 0 <= i < |tx.op.ids|
      ensures Mark(tx.signer, tx.op.kind, tx.op.ids[i]) in Marks(tx)
    {
    }
  }

  lemma BackedAccepts(txs: map<Hash, Tx>, accepted: set<Mark>, s: Signer, op: Op, h: Hash)
    requires Backed(txs, s, op, h) && Accepts(accepted, txs[h].signer, txs[h].op)
    ensures Accepts(accepted, s, op)
  {
    forall i | 0 <= i < |op.ids|
      ensures Mark(s, op.kind, op.ids[i]) in accepted
    {
      assert op.ids[i] in IdSet(op.ids);
    }
  }

  // Callers.

  /** A caller that an event leaves where it is. */
  lemma PcStays(w: World, e: Event, s: Signer)
    requires Truth(w) && Enabled(w, e) && s in w.pc && s in Apply(w, e).pc && Apply(w, e).pc[s] == w.pc[s]
    requires s in Apply(w, e).armed ==> s in w.armed && Apply(w, e).armed[s] == w.armed[s]
    ensures PcTrue(Apply(w, e).armed, Apply(w, e).txs, Apply(w, e).accepted, s, w.pc[s])
  {
    hide Enabled, Apply, Backed, Accepts, MarkersTrue, RecordsTrue, CommitsTrue;
    var u, p := Apply(w, e), w.pc[s];
    match p
    case Ready(op) =>
    case Submitting(op, attempt, running, sent) =>
      if sent.Some? { TxStep(w, e, sent.value); }
    case Polling(op, h) => BackedStays(w, e, s, op, h);
    case Resolved(op, how) =>
      match how {
        case Success => Evidence(w, e); Grown(w.accepted, u.accepted, s, op);
        case FailedTx(h) => FailedStays(w, e, s, op, h);
        case NotIncluded =>
      }
  }

  lemma FailedStays(w: World, e: Event, s: Signer, op: Op, h: Hash)
    requires Enabled(w, e) && Backed(w.txs, s, op, h) && w.txs[h].fate == Failed
    ensures Backed(Apply(w, e).txs, s, op, h) && Apply(w, e).txs[h].fate == Failed
  {
    hide Enabled, Apply, IdSet;
    TxStep(w, e, h);
  }

  lemma Evidence(w: World, e: Event)
    requires Enabled(w, e)
    ensures w.accepted <= Apply(w, e).accepted && Apply(w, e).authority == w.authority
  {
    hide Durable, FinishDb, ReconcileDb, Accepts, Completed, Selected, Submittable, Owns, Marks, Store;
  }

  /** The caller that an event moves. */
  function Mover(e: Event): Option<Signer> {
    match e
    case Begin(s, op) => Some(s)
    case Persist(s) => Some(s)
    case Launch(s) => Some(s)
    case Broadcast(s, h) => Some(s)
    case Rejected(s, sequence) => Some(s)
    case NotSent(s) => Some(s)
    case SaveHash(s) => Some(s)
    case Poll(s) => Some(s)
    case Resume(s) => Some(s)
    case ResumeRecords(s, op, h) => Some(s)
    case _ => None
  }

  lemma OthersKeep(w: World, e: Event, s: Signer)
    requires Enabled(w, e) && s in Apply(w, e).pc && Mover(e) != Some(s)
    ensures s in w.pc && Apply(w, e).pc[s] == w.pc[s]
    ensures s in Apply(w, e).armed ==> s in w.armed && Apply(w, e).armed[s] == w.armed[s]
  {
    hide Durable, FinishDb, ReconcileDb, Accepts, Completed, Selected, Submittable, Owns, Marks, Store;
  }

  lemma MoverTrue(w: World, e: Event, s: Signer)
    requires Truth(w) && Enabled(w, e) && Mover(e) == Some(s) && s in Apply(w, e).pc
    ensures var u := Apply(w, e); PcTrue(u.armed, u.txs, u.accepted, s, u.pc[s]) && Owns(w.authority, s, u.pc[s].op)
  {
    hide Enabled, Apply, PcTrue, Truth;
    if e.Begin? || e.Persist? || e.Launch? || e.Rejected? || e.NotSent? {
      StarterTrue(w, e, s);
    } else {
      SenderTrue(w, e, s);
    }
  }

  lemma StarterTrue(w: World, e: Event, s: Signer)
    requires Truth(w) && Enabled(w, e) && Mover(e) == Some(s) && (e.Begin? || e.Persist? || e.Launch? || e.Rejected? || e.NotSent?)
    ensures var u := Apply(w, e); s in u.pc && PcTrue(u.armed, u.txs, u.accepted, s, u.pc[s]) && Owns(w.authority, s, u.pc[s].op)
  {
    hide Durable, Accepts, Completed, Selected, Submittable, Owns, Backed, CommitsTrue, MarkersTrue, RecordsTrue;
  }

  lemma SenderTrue(w: World, e: Event, s: Signer)
    requires Truth(w) && Enabled(w, e) && Mover(e) == Some(s) && s in Apply(w, e).pc
    requires !(e.Begin? || e.Persist? || e.Launch? || e.Rejected? || e.NotSent?)
    ensures var u := Apply(w, e); PcTrue(u.armed, u.txs, u.accepted, s, u.pc[s]) && Owns(w.authority, s, u.pc[s].op)
  {
    hide Durable, Accepts, Owns, Backed, CommitsTrue, MarkersTrue, RecordsTrue, IdSet;
    match e
    case Broadcast(_, h) => BroadcastTrue(w, s, h);
    case SaveHash(_) => SentIsBacked(w, s);
    case Poll(_) => PollTrue(w, s);
    case Resume(_) => ResumeTrue(w, s);
    case ResumeRecords(_, op, h) => RecordsBack(w, s, op, h);
  }

  lemma BroadcastTrue(w: World, s: Signer, h: Hash)
    requires Truth(w) && Enabled(w, Broadcast(s, h)) && s in w.pc
    ensures var u := Apply(w, Broadcast(s, h)); PcTrue(u.armed, u.txs, u.accepted, s, u.pc[s])
  {
    hide Accepts, Owns, MarkersTrue, RecordsTrue, CommitsTrue, Backed, IdSet;
    if !Running(w, s) { PcStays(w, Broadcast(s, h), s); }
  }

  lemma SentIsBacked(w: World, s: Signer)
    requires PcsTrue(w) && s in w.pc && w.pc[s].Submitting? && w.pc[s].sent.Some?
    ensures Backed(w.txs, s, w.pc[s].op, w.pc[s].sent.value)
  {
    hide Accepts, Owns;
  }

  lemma PollTrue(w: World, s: Signer)
    requires Truth(w) && Enabled(w, Poll(s))
    ensures var u := Apply(w, Poll(s)); PcTrue(u.armed, u.txs, u.accepted, s, u.pc[s])
  {
    hide Accepts, Owns, MarkersTrue, RecordsTrue, IdSet;
    var p := w.pc[s];
    assert Backed(w.txs, s, p.op, p.h);
    if w.txs[p.h].fate == Committed { BackedAccepts(w.txs, w.accepted, s, p.op, p.h); }
  }

  lemma ResumeTrue(w: World, s: Signer)
    requires MarkersTrue(w.db.markers, w.txs) && Enabled(w, Resume(s))
    ensures Backed(w.txs, s, w.db.markers[s].op, w.db.markers[s].hash.value) && Owns(w.authority, s, w.db.markers[s].op)
  {
    hide IdSet;
  }

  lemma RecordsBack(w: World, s: Signer, op: Op, h: Hash)
    requires RecordsTrue(w.authority, w.txs, w.db.records) && Enabled(w, ResumeRecords(s, op, h))
    ensures Backed(w.txs, s, op, h)
  {
    assert RecordTrue(w.authority, w.txs, op.ids[0], w.db.records[op.ids[0]]);
    forall id | id in IdSet(op.ids)
      ensures id in IdSet(w.txs[h].op.ids)
    {
      assert RecordTrue(w.authority, w.txs, id, w.db.records[id]);
    }
  }

  lemma RecordsStay(w: World, e: Event)
    requires Truth(w) && Enabled(w, e)
    ensures RecordsTrue(w.authority, Apply(w, e).txs, Apply(w, e).db.records)
  {
    hide Enabled, Apply, Backed, PcsTrue, CommitsTrue, MarkersTrue, IdSet, Gone;
    var u := Apply(w, e);
    forall id | id in u.db.records
      ensures RecordTrue(w.authority, u.txs, id, u.db.records[id])
    {
      StoreStep(w, e, id);
      if u.db.records[id].hash.Some? {
        if id in w.db.records && u.db.records[id].hash == w.db.records[id].hash {
          TxStep(w, e, u.db.records[id].hash.value);
        } else {
          HashSaved(w, e, id);
        }
      }
    }
  }

  /** A new hash in a record is that of the transaction its caller sent. */
  lemma HashSaved(w: World, e: Event, id: Id)
    requires Truth(w) && Enabled(w, e) && id in w.db.records && id in Apply(w, e).db.records
    requires Apply(w, e).db.records[id].hash.Some? && Apply(w, e).db.records[id].hash != w.db.records[id].hash
    requires Apply(w, e).db.records[id].hash == Writes(w, e)
    ensures RecordTrue(w.authority, Apply(w, e).txs, id, Apply(w, e).db.records[id])
  {
    hide Durable, Accepts, Backed, CommitsTrue, MarkersTrue, RecordsTrue;
    var op, h := w.pc[e.s].op, w.pc[e.s].sent.value;
    DurableRecords(w.db, op, RecordHash(h), false, Claim(e.s, Marker(op, Some(h))), id);
  }

  lemma MarkersStay(w: World, e: Event)
    requires Truth(w) && Enabled(w, e)
    ensures MarkersTrue(Apply(w, e).db.markers, Apply(w, e).txs)
  {
    hide Enabled, Apply, Backed, CommitsTrue, RecordsTrue, IdSet, PcsTrue;
    var u := Apply(w, e);
    forall s | s in u.db.markers && u.db.markers[s].hash.Some?
      ensures Backed(u.txs, s, u.db.markers[s].op, u.db.markers[s].hash.value)
    {
      MarkerStep(w, e, s);
      if e == SaveHash(s) { Sending(w, s); SentIsBacked(w, s); }
      BackedStays(w, e, s, u.db.markers[s].op, u.db.markers[s].hash.value);
    }
  }

  lemma Sending(w: World, s: Signer)
    requires Enabled(w, SaveHash(s))
    ensures s in w.pc && w.pc[s].Submitting? && w.pc[s].sent.Some?
  {
    hide Durable;
  }

  /** Every event keeps what callers are told true, whether intents are fresh or not. */
  lemma StepTruth(w: World, e: Event)
    requires Truth(w) && Enabled(w, e)
    ensures Truth(Apply(w, e)) && Apply(w, e).authority == w.authority
  {
    hide Enabled, Apply, PcTrue, CommitsTrue, MarkersTrue, RecordsTrue, Owns;
    var u := Apply(w, e);
    Evidence(w, e);
    CommitsStay(w, e);
    MarkersStay(w, e);
    RecordsStay(w, e);
    forall s | s in u.pc
      ensures PcTrue(u.armed, u.txs, u.accepted, s, u.pc[s]) && Owns(u.authority, s, u.pc[s].op)
    {
      if Mover(e) == Some(s) { MoverTrue(w, e, s); } else { OthersKeep(w, e, s); PcStays(w, e, s); }
    }
  }

  lemma {:induction false} RunTruth(w: World, events: seq<Event>)
    requires Truth(w) && Feasible(w, events)
    ensures Truth(After(w, events)) && After(w, events).authority == w.authority
    decreases |events|
  {
    hide Truth, Enabled, Apply;
    if events != [] {
      StepTruth(w, events[0]);
      RunTruth(Apply(w, events[0]), events[1..]);
    }
  }

  // What it means.

  /**
   In every run from the empty store a caller is told what the chain did: of success only
   with evidence for all its IDs, and of a failure only with a failed transaction of its own.
   */
  lemma ToldTheTruth(authority: map<Id, Signer>, events: seq<Event>, s: Signer)
    requires Feasible(Init(authority), events)
    ensures var w := After(Init(authority), events);
            s in w.pc && w.pc[s].Resolved? ==>
              && (w.pc[s].how == Success ==> Accepts(w.accepted, s, w.pc[s].op))
              && (w.pc[s].how.FailedTx? ==> Backed(w.txs, s, w.pc[s].op, w.pc[s].how.h) && w.txs[w.pc[s].how.h].fate == Failed)
  {
    hide Feasible, After, Accepts, Backed, CommitsTrue, MarkersTrue, RecordsTrue, Owns;
    InitTruth(authority);
    RunTruth(Init(authority), events);
  }

  /** In every fresh run, one that is told that nothing was included has an open operation and nothing in flight or armed. */
  lemma ToldNothingIncluded(authority: map<Id, Signer>, events: seq<Event>, s: Signer)
    requires Feasible(Init(authority), events) && Fresh(Init(authority), events)
    ensures var w := After(Init(authority), events);
            s in w.pc && w.pc[s].Resolved? && w.pc[s].how == NotIncluded ==>
              Open(w.accepted, s, w.pc[s].op) && Still(w.txs, s) && s !in w.armed
  {
    hide Feasible, After, Fresh, Open, Still, Safe, ArmedOk, FlightsOk, MarkersOk;
    InitSafe(authority);
    RunSafe(Init(authority), events);
  }

  /** The session's proof is accepted on chain. */
  ghost predicate Proved(accepted: set<Mark>, id: Id) {
    exists s :: Mark(s, Retrieval, id) in accepted
  }

  lemma AcceptedIsProved(accepted: set<Mark>, s: Signer, op: Op, id: Id)
    requires Accepts(accepted, s, op) && op.kind == Retrieval && id in IdSet(op.ids)
    ensures Proved(accepted, id)
  {
    var i :| 0 <= i < |op.ids| && op.ids[i] == id;
    assert Mark(s, Retrieval, op.ids[i]) in accepted;
  }

  /** A record that is being submitted or has a hash leaves the store only when its session is proved on chain. */
  lemma LeavesOnEvidence(w: World, e: Event, id: Id)
    requires Truth(w) && Enabled(w, e) && id in w.db.records && id !in Apply(w, e).db.records
    ensures Proved(w.accepted, id) || (e == Cleanup(id) && !w.db.records[id].submitting && w.db.records[id].hash == None)
  {
    hide Enabled, Apply, Accepts, Proved, IdSet, Owns, CommitsTrue, MarkersTrue, RecordsTrue;
    StoreStep(w, e, id);
    if e.Finish? {
      assert PcTrue(w.armed, w.txs, w.accepted, e.s, w.pc[e.s]);
      AcceptedIsProved(w.accepted, e.s, w.pc[e.s].op, id);
    } else if e.Reconcile? {
      AcceptedIsProved(w.accepted, e.s, e.op, id);
    }
  }

  /** Every event keeps the statement of every proof that stays stored. */
  lemma StatementStays(w: World, e: Event, id: Id)
    requires Enabled(w, e) && id in w.db.records && id in Apply(w, e).db.records
    ensures Apply(w, e).db.records[id].statement == w.db.records[id].statement
  {
    hide Enabled, Apply, Gone;
    StoreStep(w, e, id);
  }

  lemma {:induction false} EvidenceGrows(w: World, events: seq<Event>)
    requires Feasible(w, events)
    ensures w.accepted <= After(w, events).accepted
    decreases |events|
  {
    hide Enabled, Apply;
    if events != [] {
      Evidence(w, events[0]);
      EvidenceGrows(Apply(w, events[0]), events[1..]);
    }
  }

  /**
   A stored proof survives every run in which maintenance does not take it, with the
   statement it was served with, unless its session is proved on chain: crashes, rejections
   and reverted transactions included.
   */
  lemma {:induction false} ProofSurvives(w: World, events: seq<Event>, id: Id)
    requires Truth(w) && Feasible(w, events) && id in w.db.records && Cleanup(id) !in events
    requires !Proved(After(w, events).accepted, id)
    ensures id in After(w, events).db.records && After(w, events).db.records[id].statement == w.db.records[id].statement
    decreases |events|
  {
    hide Truth, Enabled, Apply;
    if events != [] {
      var e, u := events[0], Apply(w, events[0]);
      assert e in events;
      EvidenceGrows(w, events);
      if id !in u.db.records { LeavesOnEvidence(w, e, id); }
      StatementStays(w, e, id);
      StepTruth(w, e);
      ProofSurvives(u, events[1..], id);
    }
  }

  /** What is served is what is stored from then on. */
  lemma ServedStatement(w: World, id: Id, statement: string, events: seq<Event>)
    requires Truth(w) && Enabled(w, Serve(id, statement)) && Feasible(Apply(w, Serve(id, statement)), events)
    requires Cleanup(id) !in events && !Proved(After(Apply(w, Serve(id, statement)), events).accepted, id)
    ensures var u := After(Apply(w, Serve(id, statement)), events); id in u.db.records && u.db.records[id].statement == statement
  {
    hide Truth, Feasible, After, Proved, Store;
    StepTruth(w, Serve(id, statement));
    StoreGranted(w.db, id, statement);
    ProofSurvives(Apply(w, Serve(id, statement)), events, id);
  }

  /**
   A caller that polls a reverted transaction is told so, and its ending keeps every stored
   proof: for a retry without a hash, or for a public signer with the hash.
   */
  lemma RevertedIsRetained(w: World, s: Signer, public: bool, id: Id)
    requires Enabled(w, Poll(s)) && w.txs[w.pc[s].h].fate == Failed && id in w.db.records
    ensures var u := Apply(w, Poll(s));
            && s in u.pc && u.pc[s] == Resolved(w.pc[s].op, FailedTx(w.pc[s].h)) && Enabled(u, Finish(s, public))
            && var v := Apply(u, Finish(s, public));
            id in v.db.records && v.db.records[id].statement == w.db.records[id].statement
  {
    hide FinishDb, Owns, IdSet, ClearMarker;
    var u := Apply(w, Poll(s));
    if FinishDb(u.db, s, u.pc[s].op, u.pc[s].how, public).Some? { FinishRecords(u.db, s, u.pc[s].op, u.pc[s].how, public, id); }
  }

  /** One that polls a committed transaction is told of success. */
  lemma CommittedIsSuccess(w: World, s: Signer)
    requires Truth(w) && Enabled(w, Poll(s)) && w.txs[w.pc[s].h].fate == Committed
    ensures var u := Apply(w, Poll(s)); s in u.pc && u.pc[s] == Resolved(w.pc[s].op, Success) && Accepts(u.accepted, s, w.pc[s].op)
  {
    hide Accepts, Owns;
    PollTrue(w, s);
  }
}
