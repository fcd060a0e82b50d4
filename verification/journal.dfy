/**
 The crash-safe broadcast journal as a transition system. Every client of the marker
 (frozen and legacy retrieval proofs, v3 proofs, generation acceptance, system audits) is
 one caller holding the in-memory signer lock; a crash may fall between any two steps and
 loses the callers but not the bucket, the chain, or a CLI child already running.
 */
module Journal {
  import opened Wrappers
  import opened ProofStore
  import B = ProofBatch
  import I = ProofIds

  datatype Fate = InFlight | Committed | Failed

  datatype Tx = Tx(signer: Signer, op: Op, fate: Fate)

  /** The chain's evidence that `signer` did operation `id`: an accepted proof, sample, slot or ordinal. */
  datatype Mark = Mark(signer: Signer, kind: Kind, id: Id)

  datatype Ending = Success | FailedTx(h: Hash) | NotIncluded

  /** Where the holder of a signer is. `sent` is the hash the CLI child printed. */
  datatype Pc =
    | Ready(op: Op)
    | Submitting(op: Op, attempt: nat, running: bool, sent: Option<Hash>)
    | Polling(op: Op, h: Hash)
    | Resolved(op: Op, how: Ending)

  /**
   `authority` names the one account the chain authorizes to prove each frozen session.
   `armed` holds the CLI children that may still broadcast, orphans of a crash included.
   */
  datatype World = World(
    authority: map<Id, Signer>,
    db: Db, txs: map<Hash, Tx>, accepted: set<Mark>, confirmed: set<Id>, armed: map<Signer, Op>, pc: map<Signer, Pc>)

  function Init(authority: map<Id, Signer>): World {
    World(authority, Db(map[], map[]), map[], {}, {}, map[], map[])
  }

  const MAX_ATTEMPTS := 5

  ghost predicate Owns(authority: map<Id, Signer>, s: Signer, op: Op) {
    op.kind == Retrieval ==> forall i :: 0 <= i < |op.ids| ==> op.ids[i] in authority && authority[op.ids[i]] == s
  }

  ghost predicate Accepts(accepted: set<Mark>, s: Signer, op: Op) {
    forall i :: 0 <= i < |op.ids| ==> Mark(s, op.kind, op.ids[i]) in accepted
  }

  /** Not all of an operation is on chain yet; nobody asks that of a legacy one. */
  ghost predicate Open(accepted: set<Mark>, s: Signer, op: Op) {
    op.kind == Legacy || !Accepts(accepted, s, op)
  }

  /** The accepted samples of a v3 session. */
  ghost function Bitmap(accepted: set<Mark>, s: Signer, session: string): set<nat> {
    set o | 0 <= o < I.MAX_SAMPLES && Mark(s, RetrievalV3, Id(I.IdOf(session, o))) in accepted
  }

  function BatchIds(session: string, ordinals: seq<nat>): seq<Id> {
    seq(|ordinals|, i requires 0 <= i < |ordinals| => Id(I.IdOf(session, ordinals[i])))
  }

  /** `op` is the next batch of the samples of `slot` that the session status shows as not accepted. */
  ghost predicate BatchOf(accepted: set<Mark>, s: Signer, op: Op, session: string, challenges: seq<B.Challenge>, slot: nat) {
    && (forall i :: 0 <= i < |challenges| ==> challenges[i].ordinal < I.MAX_SAMPLES)
    && var batch := B.First(B.Pending(challenges, Bitmap(accepted, s, session), slot), B.MAX_BATCH);
    batch != [] && op.ids == BatchIds(session, batch)
  }

  /** How each client picks its operation from what the chain shows when it asks. */
  ghost predicate Selected(accepted: set<Mark>, s: Signer, op: Op) {
    match op.kind
    case RetrievalV3 => exists session, challenges, slot :: BatchOf(accepted, s, op, session, challenges, slot)
    case GenerationV3 => |op.ids| == 1 && Mark(s, op.kind, op.ids[0]) !in accepted
    case Audit => |op.ids| == 1 && Mark(s, op.kind, op.ids[0]) !in accepted
    case _ => true
  }

  /** A frozen session completes once its proof is accepted and its owner has confirmed. */
  ghost predicate Completed(w: World, s: Signer, op: Op) {
    Accepts(w.accepted, s, op) && forall i :: 0 <= i < |op.ids| ==> op.ids[i] in w.confirmed
  }

  /** Only frozen retrieval proofs keep a record per session. */
  function RecordIds(op: Op): seq<Id> {
    if op.kind == Retrieval then op.ids else []
  }

  function Loaded(db: Db, ids: seq<Id>): seq<Entry>
    requires IdSet(ids) <= db.records.Keys
  {
    seq(|ids|, i requires 0 <= i < |ids| => assert ids[i] in IdSet(ids); Entry(ids[i], db.records[ids[i]]))
  }

  ghost function Durable(db: Db, op: Op, u: Update, remove: bool, c: MarkerChange): Option<Db> {
    if IdSet(RecordIds(op)) <= db.records.Keys then Change(db, Loaded(db, RecordIds(op)), u, remove, c) else None
  }

  /** What the submission path of a frozen session checks before it writes its intent. */
  ghost predicate Submittable(w: World, s: Signer, op: Op) {
    op.kind == Retrieval ==>
      && (forall i :: 0 <= i < |op.ids| ==>
            op.ids[i] in w.db.records && !w.db.records[op.ids[i]].submitting && w.db.records[op.ids[i]].hash == None)
      && !Completed(w, s, op)
  }

  ghost function FinishDb(db: Db, s: Signer, op: Op, how: Ending, public: bool): Option<Db> {
    match how
    case Success => Durable(db, op, Keep, true, Clear(s, op))
    case NotIncluded => Durable(db, op, Withdraw, false, Clear(s, op))
    case FailedTx(h) =>
      if public || op.kind != Retrieval then Durable(db, op, Keep, false, Clear(s, op))
      else if HashRecorded(db, op, h) then Durable(db, op, Reset, false, ClearHashed(s, op, h))
      else None
  }

  ghost predicate HashRecorded(db: Db, op: Op, h: Hash) {
    forall i :: 0 <= i < |op.ids| ==>
      op.ids[i] in db.records && db.records[op.ids[i]].submitting && db.records[op.ids[i]].hash == Some(h)
  }

  ghost function ReconcileDb(db: Db, s: Signer, op: Op): Option<Db> {
    match ClearMarker(db.markers, s, op)
    case None => None
    case Some(m) => Some(Db(m, db.records - IdSet(RecordIds(op))))
  }

  datatype Event =
    | Begin(s: Signer, op: Op)
    | Persist(s: Signer)
    | Launch(s: Signer)
    | Broadcast(s: Signer, h: Hash)
    | Rejected(s: Signer, sequence: bool)
    | NotSent(s: Signer)
    | SaveHash(s: Signer)
    | Poll(s: Signer)
    | Finish(s: Signer, public: bool)
    | Quit(s: Signer)
    | Resume(s: Signer)
    | ResumeRecords(s: Signer, op: Op, h: Hash)
    | Reconcile(s: Signer, op: Op)
    | Crash
    | Fizzle(s: Signer)
    | Commit(h: Hash)
    | Revert(h: Hash)
    | Confirm(ids: set<Id>)
    | Serve(id: Id, statement: string)
    | Cleanup(id: Id)

  ghost predicate Running(w: World, s: Signer) {
    s in w.pc && w.pc[s].Submitting? && w.pc[s].running
  }

  ghost predicate Enabled(w: World, e: Event) {
    match e
    case Begin(s, op) => s !in w.pc && s !in w.db.markers && Owns(w.authority, s, op) && Selected(w.accepted, s, op)
    case Persist(s) =>
      && s in w.pc && w.pc[s].Ready? && Submittable(w, s, w.pc[s].op)
      && Durable(w.db, w.pc[s].op, Submit, false, Claim(s, Marker(w.pc[s].op, None))).Some?
    case Launch(s) => s in w.pc && w.pc[s].Submitting? && !w.pc[s].running
    case Broadcast(s, h) => s in w.armed && h !in w.txs
    case Rejected(s, sequence) => Running(w, s) && s in w.armed
    case NotSent(s) => s in w.pc && w.pc[s].Submitting? && (w.pc[s].running ==> s in w.armed)
    case SaveHash(s) =>
      && Running(w, s) && w.pc[s].sent.Some?
      && Durable(w.db, w.pc[s].op, RecordHash(w.pc[s].sent.value), false, Claim(s, Marker(w.pc[s].op, w.pc[s].sent))).Some?
    case Poll(s) => s in w.pc && w.pc[s].Polling? && w.pc[s].h in w.txs && w.txs[w.pc[s].h].fate != InFlight
    case Finish(s, public) => s in w.pc && w.pc[s].Resolved?
    case Quit(s) => s in w.pc
    case Resume(s) => s !in w.pc && s in w.db.markers && w.db.markers[s].op.kind != Retrieval && w.db.markers[s].hash.Some?
    case ResumeRecords(s, op, h) =>
      && s !in w.pc && op.kind == Retrieval && op.ids != [] && Owns(w.authority, s, op)
      && forall i :: 0 <= i < |op.ids| ==> op.ids[i] in w.db.records && w.db.records[op.ids[i]].hash == Some(h)
    case Reconcile(s, op) =>
      && s !in w.pc && Owns(w.authority, s, op)
      && (match op.kind
          case Retrieval => Completed(w, s, op)
          case Legacy => false
          case Audit => s in w.db.markers && w.db.markers[s].op == op && Accepts(w.accepted, s, op)
          case _ => s in w.db.markers && w.db.markers[s] == Marker(op, None) && Accepts(w.accepted, s, op))
    case Crash => true
    case Fizzle(s) => s in w.armed && !Running(w, s)
    case Commit(h) => h in w.txs && w.txs[h].fate == InFlight
    case Revert(h) => h in w.txs && w.txs[h].fate == InFlight
    case Confirm(ids) => true
    case Serve(id, statement) => Store(w.db, id, statement).Some?
    case Cleanup(id) => id in w.db.records && !w.db.records[id].submitting && w.db.records[id].hash == None
  }

  ghost function Marks(tx: Tx): set<Mark> {
    set i | 0 <= i < |tx.op.ids| :: Mark(tx.signer, tx.op.kind, tx.op.ids[i])
  }

  ghost function OrElse(r: Option<Db>, db: Db): Db {
    match r
    case None => db
    case Some(next) => next
  }

  ghost function Apply(w: World, e: Event): World
    requires Enabled(w, e)
  {
    match e
    case Begin(s, op) => w.(pc := w.pc[s := Ready(op)])
    case Persist(s) =>
      var op := w.pc[s].op;
      w.(db := Durable(w.db, op, Submit, false, Claim(s, Marker(op, None))).value, pc := w.pc[s := Submitting(op, 0, false, None)])
    case Launch(s) => w.(armed := w.armed[s := w.pc[s].op], pc := w.pc[s := w.pc[s].(running := true)])
    case Broadcast(s, h) =>
      w.(armed := w.armed - {s}, txs := w.txs[h := Tx(s, w.armed[s], InFlight)],
         pc := if Running(w, s) then w.pc[s := w.pc[s].(sent := Some(h))] else w.pc)
    case Rejected(s, sequence) =>
      var p := w.pc[s];
      w.(armed := w.armed - {s},
         pc := w.pc[s := if sequence && p.attempt + 1 < MAX_ATTEMPTS then Submitting(p.op, p.attempt + 1, false, None)
                         else Resolved(p.op, NotIncluded)])
    case NotSent(s) => w.(armed := w.armed - {s}, pc := w.pc[s := Resolved(w.pc[s].op, NotIncluded)])
    case SaveHash(s) =>
      var p := w.pc[s];
      w.(db := Durable(w.db, p.op, RecordHash(p.sent.value), false, Claim(s, Marker(p.op, p.sent))).value,
         pc := w.pc[s := Polling(p.op, p.sent.value)])
    case Poll(s) =>
      var p := w.pc[s];
      w.(pc := w.pc[s := Resolved(p.op, if w.txs[p.h].fate == Committed then Success else FailedTx(p.h))])
    case Finish(s, public) =>
      w.(db := OrElse(FinishDb(w.db, s, w.pc[s].op, w.pc[s].how, public), w.db), pc := w.pc - {s})
    case Quit(s) => w.(pc := w.pc - {s})
    case Resume(s) => w.(pc := w.pc[s := Polling(w.db.markers[s].op, w.db.markers[s].hash.value)])
    case ResumeRecords(s, op, h) => w.(pc := w.pc[s := Polling(op, h)])
    case Reconcile(s, op) => w.(db := OrElse(ReconcileDb(w.db, s, op), w.db))
    case Crash => w.(pc := map[])
    case Fizzle(s) => w.(armed := w.armed - {s})
    case Commit(h) =>
      w.(txs := w.txs[h := w.txs[h].(fate := Committed)], accepted := w.accepted + Marks(w.txs[h]))
    case Revert(h) => w.(txs := w.txs[h := w.txs[h].(fate := Failed)])
    case Confirm(ids) => w.(confirmed := w.confirmed + ids)
    case Serve(id, statement) => w.(db := Store(w.db, id, statement).value)
    case Cleanup(id) => w.(db := w.db.(records := w.db.records - {id}))
  }

  ghost predicate Flying(txs: map<Hash, Tx>, s: Signer, h: Hash) {
    h in txs && txs[h].signer == s && txs[h].fate == InFlight
  }

  /**
   The journal's promise: each signer has at most one broadcast in flight, and while it
   is in flight the signer's marker names its operation and no hash but its own.
   */
  ghost predicate Safe(markers: map<Signer, Marker>, txs: map<Hash, Tx>) {
    && |markers| <= MAX_MARKERS
    && (forall s, h :: Flying(txs, s, h) ==>
          s in markers && markers[s].op == txs[h].op && (markers[s].hash == None || markers[s].hash == Some(h)))
    && (forall s, h, g :: Flying(txs, s, h) && Flying(txs, s, g) ==> h == g)
  }

  /** Nothing of `s` and `op` is in flight or about to be, except possibly `except`. */
  ghost predicate Quiet(armed: map<Signer, Op>, txs: map<Hash, Tx>, s: Signer, op: Op, except: Option<Hash>) {
    && (s in armed ==> armed[s] != op)
    && (forall h :: Flying(txs, s, h) && txs[h].op == op ==> Some(h) == except)
  }

  ghost predicate Still(txs: map<Hash, Tx>, s: Signer) {
    forall h :: !Flying(txs, s, h)
  }

  ghost predicate ArmedOk(markers: map<Signer, Marker>, armed: map<Signer, Op>, txs: map<Hash, Tx>, accepted: set<Mark>) {
    forall s :: s in armed ==>
      s in markers && markers[s] == Marker(armed[s], None) && Open(accepted, s, armed[s]) && Still(txs, s)
  }

  ghost predicate FlightsOk(txs: map<Hash, Tx>, accepted: set<Mark>) {
    forall s, h :: Flying(txs, s, h) ==> Open(accepted, s, txs[h].op)
  }

  /** A marker's hash is a real broadcast, and the records of its sessions say the same as it does. */
  ghost predicate MarkersOk(authority: map<Id, Signer>, db: Db, txs: map<Hash, Tx>) {
    forall s :: s in db.markers ==>
      && Owns(authority, s, db.markers[s].op)
      && (db.markers[s].hash.Some? ==> db.markers[s].hash.value in txs)
      && (db.markers[s].op.kind == Retrieval ==> RecordsAgree(db.records, db.markers[s]))
  }

  ghost predicate RecordsAgree(records: map<Id, Record>, m: Marker) {
    forall i :: 0 <= i < |m.op.ids| ==>
      m.op.ids[i] in records && records[m.op.ids[i]].submitting && records[m.op.ids[i]].hash == m.hash
  }

  ghost predicate PcOk(
    markers: map<Signer, Marker>, armed: map<Signer, Op>, txs: map<Hash, Tx>, accepted: set<Mark>, s: Signer, p: Pc)
  {
    match p
    case Ready(op) => s !in markers && (op.kind != Retrieval ==> Open(accepted, s, op))
    case Submitting(op, attempt, running, sent) =>
      && s in markers && markers[s] == Marker(op, None) && ValidOp(op) && attempt < MAX_ATTEMPTS
      && (if running then
            && (s in armed <==> sent == None)
            && (sent.Some? ==> sent.value in txs && forall h :: Flying(txs, s, h) ==> h == sent.value)
          else sent == None && s !in armed && Still(txs, s) && Open(accepted, s, op))
    case Polling(op, h) => Quiet(armed, txs, s, op, Some(h))
    case Resolved(op, how) =>
      && Quiet(armed, txs, s, op, None)
      && (how == NotIncluded ==> s in markers && markers[s] == Marker(op, None) && s !in armed && Still(txs, s) && Open(accepted, s, op))
  }

  ghost predicate PcsOk(w: World) {
    forall s :: s in w.pc ==>
      PcOk(w.db.markers, w.armed, w.txs, w.accepted, s, w.pc[s]) && Owns(w.authority, s, w.pc[s].op)
  }

  ghost predicate Inv(w: World) {
    && Safe(w.db.markers, w.txs)
    && ArmedOk(w.db.markers, w.armed, w.txs, w.accepted)
    && FlightsOk(w.txs, w.accepted)
    && MarkersOk(w.authority, w.db, w.txs)
    && PcsOk(w)
  }

  /** An intent is fresh when at least one of its IDs is not accepted yet. */
  ghost predicate FreshIntent(w: World, e: Event) {
    e.Persist? && e.s in w.pc && w.pc[e.s].Ready? ==> Open(w.accepted, e.s, w.pc[e.s].op)
  }

  /** What the clients pick is not all accepted: for v3 because only pending samples are picked. */
  lemma SelectedIsOpen(accepted: set<Mark>, s: Signer, op: Op)
    requires Selected(accepted, s, op) && op.kind != Retrieval
    ensures Open(accepted, s, op)
  {
    hide B.Pending, B.First, I.IdOf;
    if op.kind == RetrievalV3 {
      var session, challenges, slot :| BatchOf(accepted, s, op, session, challenges, slot);
      var pending := B.Pending(challenges, Bitmap(accepted, s, session), slot);
      B.PendingFacts(challenges, Bitmap(accepted, s, session), slot);
      FirstOf(pending);
      var x := pending[0];
      assert x in pending && B.Challenge(slot, x) in challenges && x < I.MAX_SAMPLES;
      assert op.ids[0] == Id(I.IdOf(session, x));
    }
  }

  lemma FirstOf(pending: seq<nat>)
    ensures var batch := B.First(pending, B.MAX_BATCH); batch != [] ==> pending != [] && batch[0] == pending[0]
  {
  }

  /** A v3 batch is all accepted exactly when the session's bitmap has each of its samples. */
  lemma BatchAcceptedIsBitmap(accepted: set<Mark>, s: Signer, session: string, ordinals: seq<nat>)
    requires forall i :: 0 <= i < |ordinals| ==> ordinals[i] < I.MAX_SAMPLES
    ensures Accepts(accepted, s, Op(RetrievalV3, BatchIds(session, ordinals))) <==>
              forall i :: 0 <= i < |ordinals| ==> ordinals[i] in Bitmap(accepted, s, session)
  {
    hide I.IdOf;
    var ids := BatchIds(session, ordinals);
    forall i | 0 <= i < |ordinals|
      ensures Mark(s, RetrievalV3, ids[i]) in accepted <==> ordinals[i] in Bitmap(accepted, s, session)
    {
    }
  }

  lemma BeginOk(w: World, s: Signer, op: Op)
    requires Inv(w) && Enabled(w, Begin(s, op))
    ensures Inv(Apply(w, Begin(s, op)))
  {
    hide Selected, Open, Accepts;
    if op.kind != Retrieval { SelectedIsOpen(w.accepted, s, op); }
  }

  lemma PollOk(w: World, s: Signer)
    requires Inv(w) && Enabled(w, Poll(s))
    ensures Inv(Apply(w, Poll(s)))
  {
  }

  lemma LeaveOk(w: World, gone: set<Signer>)
    requires Inv(w)
    ensures Inv(w.(pc := w.pc - gone))
  {
  }

  lemma ResumeOk(w: World, s: Signer)
    requires Inv(w) && Enabled(w, Resume(s))
    ensures Inv(Apply(w, Resume(s)))
  {
  }

  lemma ResumeRecordsOk(w: World, s: Signer, op: Op, h: Hash)
    requires Inv(w) && Enabled(w, ResumeRecords(s, op, h))
    ensures Inv(Apply(w, ResumeRecords(s, op, h)))
  {
  }

  lemma LaunchOk(w: World, s: Signer)
    requires Inv(w) && Enabled(w, Launch(s))
    ensures Inv(Apply(w, Launch(s)))
  {
    hide Open, Accepts, ValidOp, RecordsAgree, Owns, PcOk, Safe, FlightsOk, MarkersOk;
    var u := Apply(w, Launch(s));
    LaunchPc(w, s);
    forall t | t in u.pc && t != s
      ensures PcOk(u.db.markers, u.armed, u.txs, u.accepted, t, u.pc[t])
    {
      PcElsewhere(w, u, t, w.pc[t]);
    }
  }

  lemma LaunchPc(w: World, s: Signer)
    requires Inv(w) && Enabled(w, Launch(s))
    ensures var u := Apply(w, Launch(s));
            && PcOk(u.db.markers, u.armed, u.txs, u.accepted, s, u.pc[s])
            && ArmedOk(u.db.markers, u.armed, u.txs, u.accepted)
  {
    hide Open, Accepts, ValidOp, RecordsAgree, Owns, Safe, FlightsOk, MarkersOk;
    assert PcOk(w.db.markers, w.armed, w.txs, w.accepted, s, w.pc[s]);
  }

  lemma BroadcastOk(w: World, s: Signer, h: Hash)
    requires Inv(w) && Enabled(w, Broadcast(s, h))
    ensures Inv(Apply(w, Broadcast(s, h)))
  {
    hide Open, Accepts, ValidOp, RecordsAgree, Owns;
    var u := Apply(w, Broadcast(s, h));
    Airborne(w.txs, u.txs, s, h);
    assert PcsOk(u) by {
      forall t | t in u.pc
        ensures PcOk(u.db.markers, u.armed, u.txs, u.accepted, t, u.pc[t])
      {
        BroadcastPc(w, s, h, t);
      }
    }
    hide PcOk;
    assert Safe(u.db.markers, u.txs);
    assert FlightsOk(u.txs, u.accepted);
  }

  lemma Airborne(before: map<Hash, Tx>, after: map<Hash, Tx>, s: Signer, h: Hash)
    requires h !in before && h in after && after == before[h := after[h]] && after[h].signer == s && after[h].fate == InFlight
    ensures forall t, g :: Flying(after, t, g) <==> Flying(before, t, g) || (t == s && g == h)
    ensures forall t :: t != s && Still(before, t) ==> Still(after, t)
  {
    assert forall t, g :: Flying(after, t, g) <==> Flying(before, t, g) || (t == s && g == h);
  }

  lemma BroadcastPc(w: World, s: Signer, h: Hash, t: Signer)
    requires Inv(w) && Enabled(w, Broadcast(s, h)) && t in w.pc
    ensures var u := Apply(w, Broadcast(s, h)); PcOk(u.db.markers, u.armed, u.txs, u.accepted, t, u.pc[t])
  {
    hide Open, Accepts, ValidOp, MarkersOk, FlightsOk, Owns;
    var u := Apply(w, Broadcast(s, h));
    Airborne(w.txs, u.txs, s, h);
    assert PcOk(w.db.markers, w.armed, w.txs, w.accepted, t, w.pc[t]);
  }

  lemma RejectedOk(w: World, s: Signer, sequence: bool)
    requires Inv(w) && Enabled(w, Rejected(s, sequence))
    ensures Inv(Apply(w, Rejected(s, sequence)))
  {
    hide Open, Accepts, ValidOp, RecordsAgree, Owns, Safe, FlightsOk, MarkersOk;
    Disarmed(w, Apply(w, Rejected(s, sequence)), s);
  }

  lemma NotSentOk(w: World, s: Signer)
    requires Inv(w) && Enabled(w, NotSent(s))
    ensures Inv(Apply(w, NotSent(s)))
  {
    hide Open, Accepts, ValidOp, RecordsAgree, Owns, Safe, FlightsOk, MarkersOk;
    Disarmed(w, Apply(w, NotSent(s)), s);
  }

  lemma FizzleOk(w: World, s: Signer)
    requires Inv(w) && Enabled(w, Fizzle(s))
    ensures Inv(Apply(w, Fizzle(s)))
  {
    hide Open, Accepts, ValidOp, RecordsAgree, Owns, Safe, FlightsOk, MarkersOk;
    Disarmed(w, Apply(w, Fizzle(s)), s);
  }

  /** A CLI child that ended without broadcasting frees its signer and nobody else's. */
  lemma Disarmed(w: World, u: World, s: Signer)
    requires Inv(w) && u == w.(armed := w.armed - {s}, pc := u.pc)
    requires u.pc.Keys == w.pc.Keys && forall t :: t in w.pc && t != s ==> u.pc[t] == w.pc[t]
    requires s in u.pc ==> PcOk(u.db.markers, u.armed, u.txs, u.accepted, s, u.pc[s]) && Owns(w.authority, s, u.pc[s].op)
    ensures Inv(u)
  {
    forall t | t in u.pc
      ensures PcOk(u.db.markers, u.armed, u.txs, u.accepted, t, u.pc[t]) && Owns(u.authority, t, u.pc[t].op)
    {
      if t != s {
        PcElsewhere(w, u, t, w.pc[t]);
      }
    }
    hide PcOk, Open, Accepts;
  }

  lemma PcElsewhere(w: World, u: World, t: Signer, p: Pc)
    requires PcOk(w.db.markers, w.armed, w.txs, w.accepted, t, p) && u.txs == w.txs && u.accepted == w.accepted
    requires t in u.armed <==> t in w.armed
    requires t in w.armed ==> u.armed[t] == w.armed[t]
    requires t in u.db.markers <==> t in w.db.markers
    requires t in w.db.markers ==> u.db.markers[t] == w.db.markers[t]
    ensures PcOk(u.db.markers, u.armed, u.txs, u.accepted, t, p)
  {
    hide Open, Accepts, ValidOp;
  }

  lemma CommitOk(w: World, h: Hash)
    requires Inv(w) && Enabled(w, Commit(h))
    ensures Inv(Apply(w, Commit(h)))
  {
    hide Open, Accepts, ValidOp, RecordsAgree, Marks, PcOk, Owns;
    var s, u := w.txs[h].signer, Apply(w, Commit(h));
    Landed(w.txs, u.txs, h);
    assert Flying(w.txs, s, h);
    OthersUntouched(w.accepted, w.txs[h]);
    assert s !in w.armed;
    assert ArmedOk(u.db.markers, u.armed, u.txs, u.accepted);
    assert FlightsOk(u.txs, u.accepted);
    forall t | t in u.pc
      ensures PcOk(u.db.markers, u.armed, u.txs, u.accepted, t, u.pc[t])
    {
      LandedPc(w, u, h, t);
    }
  }

  lemma RevertOk(w: World, h: Hash)
    requires Inv(w) && Enabled(w, Revert(h))
    ensures Inv(Apply(w, Revert(h)))
  {
    hide Open, Accepts, ValidOp, RecordsAgree, PcOk, Owns;
    var u := Apply(w, Revert(h));
    Landed(w.txs, u.txs, h);
    forall t | t in u.pc
      ensures PcOk(u.db.markers, u.armed, u.txs, u.accepted, t, u.pc[t])
    {
      LandedPc(w, u, h, t);
    }
  }

  lemma Landed(before: map<Hash, Tx>, after: map<Hash, Tx>, h: Hash)
    requires h in before && h in after && after == before[h := after[h]] && after[h].fate != InFlight
    ensures forall t, g :: Flying(after, t, g) <==> Flying(before, t, g) && g != h
    ensures forall t :: Still(before, t) ==> Still(after, t)
  {
    assert forall t, g :: Flying(after, t, g) <==> Flying(before, t, g) && g != h;
  }

  lemma LandedPc(w: World, u: World, h: Hash, t: Signer)
    requires Inv(w) && t in w.pc && h in w.txs && w.txs[h].fate == InFlight && h in u.txs && u.txs[h].fate != InFlight
    requires u == w.(txs := w.txs[h := u.txs[h]], accepted := u.accepted)
    requires t != w.txs[h].signer ==> forall op :: Open(u.accepted, t, op) <==> Open(w.accepted, t, op)
    ensures PcOk(u.db.markers, u.armed, u.txs, u.accepted, t, u.pc[t])
  {
    hide Open, Accepts, ValidOp, MarkersOk, FlightsOk, Owns;
    Landed(w.txs, u.txs, h);
    assert Flying(w.txs, w.txs[h].signer, h);
    assert PcOk(w.db.markers, w.armed, w.txs, w.accepted, t, w.pc[t]);
  }

  /** A commit is evidence only for the account that signed it. */
  lemma OthersUntouched(accepted: set<Mark>, tx: Tx)
    ensures forall t, op :: t != tx.signer ==> (Open(accepted + Marks(tx), t, op) <==> Open(accepted, t, op))
  {
    assert forall t, op :: t != tx.signer ==> (Accepts(accepted + Marks(tx), t, op) <==> Accepts(accepted, t, op));
  }

  /** A transaction over the records as they are stored fails only at its marker. */
  lemma DurableShape(db: Db, op: Op, u: Update, remove: bool, c: MarkerChange)
    ensures Durable(db, op, u, remove, c).Some? <==>
              IdSet(RecordIds(op)) <= db.records.Keys && ChangeMarker(db.markers, c).Some?
    ensures Durable(db, op, u, remove, c).Some? ==>
              Durable(db, op, u, remove, c).value ==
                Db(ChangeMarker(db.markers, c).value, Rewritten(db.records, IdSet(RecordIds(op)), u, remove))
  {
    hide ChangeMarker, Rewritten, IdSet;
    if IdSet(RecordIds(op)) <= db.records.Keys {
      var entries := Loaded(db, RecordIds(op));
      assert EntryIds(entries) == RecordIds(op);
      LoadedIsCurrent(db, RecordIds(op));
    }
  }

  lemma LoadedIsCurrent(db: Db, ids: seq<Id>)
    requires IdSet(ids) <= db.records.Keys
    ensures Current(db, Loaded(db, ids))
  {
    assert forall i :: 0 <= i < |ids| ==> ids[i] in IdSet(ids);
  }

  lemma PersistOk(w: World, s: Signer)
    requires Inv(w) && Enabled(w, Persist(s)) && FreshIntent(w, Persist(s))
    ensures Inv(Apply(w, Persist(s)))
  {
    hide Open, Accepts, Safe, ArmedOk, FlightsOk, MarkersOk, PcOk, Durable, Owns, Submittable;
    var op, u := w.pc[s].op, Apply(w, Persist(s));
    PersistShape(w, s);
    NoMarkerStill(w, s);
    SafeWithMarker(w.db.markers, w.txs, s, Marker(op, None));
    PersistRecords(w, s);
    ArmedWithMarker(w, s, Marker(op, None));
    NewlySubmitting(w, s);
    forall t | t in u.pc && t != s
      ensures PcOk(u.db.markers, u.armed, u.txs, u.accepted, t, u.pc[t])
    {
      PcElsewhere(w, u, t, w.pc[t]);
    }
  }

  lemma PersistShape(w: World, s: Signer)
    requires Inv(w) && Enabled(w, Persist(s))
    ensures var op, u := w.pc[s].op, Apply(w, Persist(s));
            && s !in w.db.markers && u == w.(db := u.db, pc := w.pc[s := Submitting(op, 0, false, None)])
            && u.db.markers == w.db.markers[s := Marker(op, None)] && |u.db.markers| <= MAX_MARKERS && ValidOp(op)
  {
    hide Open, Accepts, Safe, ArmedOk, FlightsOk, MarkersOk, Durable, Owns, Submittable, ClaimMarker, Rewritten, ValidOp;
    var op := w.pc[s].op;
    assert PcOk(w.db.markers, w.armed, w.txs, w.accepted, s, w.pc[s]);
    DurableShape(w.db, op, Submit, false, Claim(s, Marker(op, None)));
    NewClaim(w.db.markers, s, Marker(op, None));
  }

  lemma NewClaim(markers: map<Signer, Marker>, s: Signer, m: Marker)
    requires s !in markers && ClaimMarker(markers, s, m).Some?
    ensures ClaimMarker(markers, s, m).value == markers[s := m] && ValidOp(m.op) && |markers[s := m]| <= MAX_MARKERS
  {
    hide ValidOp;
    var next := markers[s := m];
    assert next.Keys == markers.Keys + {s} && |next| == |next.Keys| && |markers| == |markers.Keys|;
  }

  lemma ArmedWithMarker(w: World, s: Signer, m: Marker)
    requires ArmedOk(w.db.markers, w.armed, w.txs, w.accepted) && s !in w.armed
    ensures ArmedOk(w.db.markers[s := m], w.armed, w.txs, w.accepted)
  {
    hide Open, Still;
  }

  lemma NewlySubmitting(w: World, s: Signer)
    requires Inv(w) && Enabled(w, Persist(s)) && FreshIntent(w, Persist(s))
    ensures var u := Apply(w, Persist(s)); s in u.pc && PcOk(u.db.markers, u.armed, u.txs, u.accepted, s, u.pc[s])
  {
    hide Open, Accepts, Safe, ArmedOk, FlightsOk, MarkersOk, Durable, Owns, Submittable, ValidOp, Still;
    PersistShape(w, s);
    NoMarkerStill(w, s);
  }

  lemma NoMarkerStill(w: World, s: Signer)
    requires Inv(w) && s !in w.db.markers
    ensures Still(w.txs, s) && s !in w.armed
  {
  }

  lemma SafeWithMarker(markers: map<Signer, Marker>, txs: map<Hash, Tx>, s: Signer, m: Marker)
    requires Safe(markers, txs) && Still(txs, s) && |markers[s := m]| <= MAX_MARKERS
    ensures Safe(markers[s := m], txs)
  {
  }

  lemma PersistRecords(w: World, s: Signer)
    requires Inv(w) && Enabled(w, Persist(s))
    ensures MarkersOk(w.authority, Apply(w, Persist(s)).db, w.txs)
  {
    hide Durable, Open, Accepts, PcOk, FlightsOk, ArmedOk, Safe;
    var op, u := w.pc[s].op, Apply(w, Persist(s));
    DurableShape(w.db, op, Submit, false, Claim(s, Marker(op, None)));
    assert u.db.markers == w.db.markers[s := Marker(op, None)];
    forall t | t in u.db.markers && u.db.markers[t].op.kind == Retrieval
      ensures RecordsAgree(u.db.records, u.db.markers[t])
    {
    }
  }

  lemma SaveHashOk(w: World, s: Signer)
    requires Inv(w) && Enabled(w, SaveHash(s))
    ensures Inv(Apply(w, SaveHash(s)))
  {
    hide Open, Accepts, Rewritten, FlightsOk, MarkersOk, Durable, Owns;
    var p, u := w.pc[s], Apply(w, SaveHash(s));
    var h := p.sent.value;
    DurableShape(w.db, p.op, RecordHash(h), false, Claim(s, Marker(p.op, p.sent)));
    assert u.db.markers == w.db.markers[s := Marker(p.op, Some(h))];
    assert s !in w.armed;
    SaveHashRecords(w, s);
  }

  lemma SaveHashRecords(w: World, s: Signer)
    requires Inv(w) && Enabled(w, SaveHash(s))
    ensures MarkersOk(w.authority, Apply(w, SaveHash(s)).db, w.txs)
  {
    hide Durable, Open, Accepts, FlightsOk, ArmedOk, Safe, ValidOp, Still;
    var p, u := w.pc[s], Apply(w, SaveHash(s));
    DurableShape(w.db, p.op, RecordHash(p.sent.value), false, Claim(s, Marker(p.op, p.sent)));
    assert u.db.markers == w.db.markers[s := Marker(p.op, p.sent)];
    assert PcOk(w.db.markers, w.armed, w.txs, w.accepted, s, p);
    forall t | t in u.db.markers && u.db.markers[t].op.kind == Retrieval
      ensures RecordsAgree(u.db.records, u.db.markers[t])
    {
      assert RecordsAgree(w.db.records, w.db.markers[t]);
    }
  }

  /** Dropping the marker of a quiet operation, together with any change to its own records, is safe. */
  lemma ClearedOk(w: World, s: Signer, op: Op, next: Db)
    requires Inv(w) && Quiet(w.armed, w.txs, s, op, None) && Owns(w.authority, s, op)
    requires ClearMarker(w.db.markers, s, op) == Some(next.markers)
    requires Elsewhere(w.db.records, next.records, IdSet(RecordIds(op)))
    ensures Inv(w.(db := next, pc := w.pc - {s}))
  {
    hide Safe, ArmedOk, FlightsOk, MarkersOk, Owns, PcOk, Quiet, Still, Elsewhere;
    var u := w.(db := next, pc := w.pc - {s});
    assert next.markers == w.db.markers - {s};
    QuietMarker(w, s, op);
    ClearedMarker(w, s);
    ClearedRecords(w, s, op, next);
    forall t | t in u.pc
      ensures PcOk(u.db.markers, u.armed, u.txs, u.accepted, t, u.pc[t])
    {
      PcElsewhere(w, u, t, w.pc[t]);
    }
  }

  lemma QuietMarker(w: World, s: Signer, op: Op)
    requires Inv(w) && Quiet(w.armed, w.txs, s, op, None)
    requires s in w.db.markers ==> w.db.markers[s].op == op
    ensures s !in w.armed && Still(w.txs, s)
  {
    hide Open, Accepts, MarkersOk, PcsOk;
  }

  lemma ClearedMarker(w: World, s: Signer)
    requires Inv(w) && s !in w.armed && Still(w.txs, s)
    ensures Safe(w.db.markers - {s}, w.txs) && ArmedOk(w.db.markers - {s}, w.armed, w.txs, w.accepted)
  {
    hide Open, Accepts, MarkersOk, PcsOk;
    ShrinkMarkers(w.db.markers, s);
  }

  lemma ShrinkMarkers(m: map<Signer, Marker>, s: Signer)
    ensures |m - {s}| <= |m|
  {
    var r := m - {s};
    assert m.Keys == r.Keys + (m.Keys * {s});
    assert |m| == |m.Keys| && |r| == |r.Keys|;
  }

  ghost predicate Elsewhere(before: map<Id, Record>, after: map<Id, Record>, ids: set<Id>) {
    forall id :: id in before && id !in ids ==> id in after && after[id] == before[id]
  }

  lemma ClearedRecords(w: World, s: Signer, op: Op, next: Db)
    requires MarkersOk(w.authority, w.db, w.txs) && Owns(w.authority, s, op) && next.markers == w.db.markers - {s}
    requires Elsewhere(w.db.records, next.records, IdSet(RecordIds(op)))
    ensures MarkersOk(w.authority, next, w.txs)
  {
    forall t | t in next.markers && next.markers[t].op.kind == Retrieval
      ensures RecordsAgree(next.records, next.markers[t])
    {
      assert RecordsAgree(w.db.records, w.db.markers[t]);
    }
  }

  lemma FinishOk(w: World, s: Signer, public: bool)
    requires Inv(w) && Enabled(w, Finish(s, public))
    ensures Inv(Apply(w, Finish(s, public)))
  {
    hide Durable, Open, Accepts, Safe, ArmedOk, FlightsOk, MarkersOk, Quiet, Owns, HashRecorded;
    var op, how := w.pc[s].op, w.pc[s].how;
    var r := FinishDb(w.db, s, op, how, public);
    if r.None? {
      LeaveOk(w, {s});
    } else {
      FinishShape(w.db, s, op, how, public);
      ClearedOk(w, s, op, r.value);
    }
  }

  lemma FinishShape(db: Db, s: Signer, op: Op, how: Ending, public: bool)
    requires FinishDb(db, s, op, how, public).Some?
    ensures var next := FinishDb(db, s, op, how, public).value;
            && ClearMarker(db.markers, s, op) == Some(next.markers)
            && Elsewhere(db.records, next.records, IdSet(RecordIds(op)))
  {
    hide Durable, HashRecorded, IdSet;
    match how
    case Success => DurableShape(db, op, Keep, true, Clear(s, op));
    case NotIncluded => DurableShape(db, op, Withdraw, false, Clear(s, op));
    case FailedTx(h) =>
      DurableShape(db, op, Keep, false, Clear(s, op));
      DurableShape(db, op, Reset, false, ClearHashed(s, op, h));
  }

  /** Evidence on chain for every ID means nothing of that operation is still in flight. */
  lemma AcceptedIsQuiet(w: World, s: Signer, op: Op)
    requires Inv(w) && Accepts(w.accepted, s, op) && op.kind != Legacy
    ensures Quiet(w.armed, w.txs, s, op, None)
  {
    hide Accepts;
  }

  lemma ReconcileOk(w: World, s: Signer, op: Op)
    requires Inv(w) && Enabled(w, Reconcile(s, op))
    ensures Inv(Apply(w, Reconcile(s, op)))
  {
    hide Safe, ArmedOk, FlightsOk, MarkersOk, PcsOk, Quiet, Owns, IdSet;
    AcceptedIsQuiet(w, s, op);
    var r := ReconcileDb(w.db, s, op);
    if r.Some? {
      ClearedOk(w, s, op, r.value);
      assert w.pc - {s} == w.pc;
    }
  }

  lemma ServeOk(w: World, id: Id, statement: string)
    requires Inv(w) && Enabled(w, Serve(id, statement))
    ensures Inv(Apply(w, Serve(id, statement)))
  {
    hide Safe, ArmedOk, FlightsOk, PcOk, Owns;
    if id !in w.db.records {
      RecordsElsewhere(w, Apply(w, Serve(id, statement)).db.records, id);
    }
  }

  lemma CleanupOk(w: World, id: Id)
    requires Inv(w) && Enabled(w, Cleanup(id))
    ensures Inv(Apply(w, Cleanup(id)))
  {
    hide Safe, ArmedOk, FlightsOk, PcOk, Owns;
    RecordsElsewhere(w, Apply(w, Cleanup(id)).db.records, id);
  }

  lemma RecordsElsewhere(w: World, after: map<Id, Record>, id: Id)
    requires MarkersOk(w.authority, w.db, w.txs) && Elsewhere(w.db.records, after, {id})
    requires id in w.db.records ==> !w.db.records[id].submitting
    ensures MarkersOk(w.authority, w.db.(records := after), w.txs)
  {
    forall t | t in w.db.markers && w.db.markers[t].op.kind == Retrieval
      ensures RecordsAgree(after, w.db.markers[t])
    {
      assert RecordsAgree(w.db.records, w.db.markers[t]);
    }
  }

  lemma StoreStepInv(w: World, e: Event)
    requires Inv(w) && Enabled(w, e) && FreshIntent(w, e)
    requires e.Persist? || e.SaveHash? || e.Finish? || e.Reconcile? || e.Serve? || e.Cleanup?
    ensures Inv(Apply(w, e)) && Apply(w, e).authority == w.authority
  {
    hide Inv, Durable, FinishDb, ReconcileDb, Open, Accepts, Completed, Submittable, Store;
    match e
    case Persist(s) => PersistOk(w, s);
    case SaveHash(s) => SaveHashOk(w, s);
    case Finish(s, public) => FinishOk(w, s, public);
    case Reconcile(s, op) => ReconcileOk(w, s, op);
    case Serve(id, statement) => ServeOk(w, id, statement);
    case Cleanup(id) => CleanupOk(w, id);
  }

  lemma ChainStepInv(w: World, e: Event)
    requires Inv(w) && Enabled(w, e)
    requires e.Broadcast? || e.Fizzle? || e.Commit? || e.Revert? || e.Confirm? || e.Crash?
    ensures Inv(Apply(w, e)) && Apply(w, e).authority == w.authority
  {
    hide Inv, Marks;
    match e
    case Broadcast(s, h) => BroadcastOk(w, s, h);
    case Crash =>
      LeaveOk(w, w.pc.Keys);
      assert w.pc - w.pc.Keys == map[];
    case Fizzle(s) => FizzleOk(w, s);
    case Commit(h) => CommitOk(w, h);
    case Revert(h) => RevertOk(w, h);
    case Confirm(ids) => ConfirmOk(w, ids);
  }

  lemma CallerStepInv(w: World, e: Event)
    requires Inv(w) && Enabled(w, e)
    requires e.Begin? || e.Launch? || e.Rejected? || e.NotSent? || e.Poll? || e.Quit? || e.Resume? || e.ResumeRecords?
    ensures Inv(Apply(w, e)) && Apply(w, e).authority == w.authority
  {
    hide Inv, Owns;
    match e
    case Begin(s, op) => BeginOk(w, s, op);
    case Launch(s) => LaunchOk(w, s);
    case Rejected(s, sequence) => RejectedOk(w, s, sequence);
    case NotSent(s) => NotSentOk(w, s);
    case Poll(s) => PollOk(w, s);
    case Quit(s) => LeaveOk(w, {s});
    case Resume(s) => ResumeOk(w, s);
    case ResumeRecords(s, op, h) => ResumeRecordsOk(w, s, op, h);
  }

  /** Every step keeps the invariant, provided intents are fresh. */
  lemma StepInv(w: World, e: Event)
    requires Inv(w) && Enabled(w, e) && FreshIntent(w, e)
    ensures Inv(Apply(w, e)) && Apply(w, e).authority == w.authority
  {
    hide Inv, Apply, FreshIntent;
    if e.Persist? || e.SaveHash? || e.Finish? || e.Reconcile? || e.Serve? || e.Cleanup? {
      StoreStepInv(w, e);
    } else if e.Broadcast? || e.Fizzle? || e.Commit? || e.Revert? || e.Confirm? || e.Crash? {
      ChainStepInv(w, e);
    } else {
      CallerStepInv(w, e);
    }
  }

  lemma ConfirmOk(w: World, ids: set<Id>)
    requires Inv(w)
    ensures Inv(w.(confirmed := w.confirmed + ids))
  {
    hide Safe, ArmedOk, FlightsOk, MarkersOk, PcOk, Owns;
  }

  /** The state after a list of events, each enabled where it happens. */
  ghost predicate Feasible(w: World, events: seq<Event>)
    decreases |events|
  {
    events == [] || (Enabled(w, events[0]) && Feasible(Apply(w, events[0]), events[1..]))
  }

  ghost function After(w: World, events: seq<Event>): World
    requires Feasible(w, events)
    decreases |events|
  {
    if events == [] then w else After(Apply(w, events[0]), events[1..])
  }

  ghost predicate Fresh(w: World, events: seq<Event>)
    requires Feasible(w, events)
    decreases |events|
  {
    events == [] || (FreshIntent(w, events[0]) && Fresh(Apply(w, events[0]), events[1..]))
  }

  /** Whatever the order of steps, crashes, broadcasts and commits, the journal stays safe. */
  lemma {:induction false} RunSafe(w: World, events: seq<Event>)
    requires Inv(w) && Feasible(w, events) && Fresh(w, events)
    ensures Inv(After(w, events))
    decreases |events|
  {
    hide Inv, Enabled, Apply, FreshIntent;
    if events != [] {
      StepInv(w, events[0]);
      RunSafe(Apply(w, events[0]), events[1..]);
    }
  }

  lemma InitSafe(authority: map<Id, Signer>)
    ensures Inv(Init(authority))
  {
  }

  /**
   Only the frozen-session client can write a stale intent: what any other client picked
   when it asked the chain is still not all accepted when it writes its intent, because
   nothing of that signer is in flight in between.
   */
  lemma OnlyFrozenSessionsCanBeStale(authority: map<Id, Signer>, events: seq<Event>, s: Signer)
    requires Feasible(Init(authority), events) && Fresh(Init(authority), events)
    requires Enabled(After(Init(authority), events), Persist(s)) && After(Init(authority), events).pc[s].op.kind != Retrieval
    ensures FreshIntent(After(Init(authority), events), Persist(s))
  {
    hide Feasible, After, Fresh, Safe, ArmedOk, FlightsOk, MarkersOk, Open;
    InitSafe(authority);
    RunSafe(Init(authority), events);
  }

  /** What is left of an operation whose marker is cleared: nothing, or records ready for another attempt, or a kept hash. */
  ghost predicate Settled(db: Db, op: Op, how: Ending, public: bool) {
    op.kind == Retrieval ==>
      forall i :: 0 <= i < |op.ids| ==>
        match how
        case Success => op.ids[i] !in db.records
        case NotIncluded => op.ids[i] in db.records && !db.records[op.ids[i]].submitting
        case FailedTx(h) =>
          op.ids[i] in db.records && if public then db.records[op.ids[i]].hash == Some(h) else
            !db.records[op.ids[i]].submitting && db.records[op.ids[i]].hash == None
  }

  /**
   A caller that learns the end of its own operation clears the marker and settles its
   records. After a failed transaction the hash it polled must be the recorded one.
   */
  lemma EndingSettles(w: World, s: Signer, public: bool)
    requires Inv(w) && Enabled(w, Finish(s, public)) && s in w.db.markers && w.db.markers[s].op == w.pc[s].op
    requires w.pc[s].how.FailedTx? ==> w.db.markers[s].hash == Some(w.pc[s].how.h)
    ensures var u := Apply(w, Finish(s, public));
            u.db.markers == w.db.markers - {s} && s !in u.pc && Settled(u.db, w.pc[s].op, w.pc[s].how, public)
  {
    hide FinishDb, Open, Accepts, Safe, ArmedOk, FlightsOk, PcsOk, Owns, Settled;
    var op := w.pc[s].op;
    assert op.kind == Retrieval ==> RecordsAgree(w.db.records, w.db.markers[s]);
    FinishSettles(w.db, s, op, w.pc[s].how, public);
  }

  /** What settling an operation does to the store that holds its marker and records. */
  lemma FinishSettles(db: Db, s: Signer, op: Op, how: Ending, public: bool)
    requires s in db.markers && db.markers[s].op == op && (op.kind == Retrieval ==> RecordsAgree(db.records, db.markers[s]))
    requires how.FailedTx? ==> db.markers[s].hash == Some(how.h)
    ensures FinishDb(db, s, op, how, public).Some?
    ensures var next := FinishDb(db, s, op, how, public).value; next.markers == db.markers - {s} && Settled(next, op, how, public)
  {
    hide Durable;
    assert IdSet(RecordIds(op)) <= db.records.Keys;
    match how
    case Success => DurableShape(db, op, Keep, true, Clear(s, op));
    case NotIncluded => DurableShape(db, op, Withdraw, false, Clear(s, op));
    case FailedTx(h) =>
      DurableShape(db, op, Keep, false, Clear(s, op));
      DurableShape(db, op, Reset, false, ClearHashed(s, op, h));
  }

  /** A completed operation is reconciled away even if its hash was never recorded. */
  lemma ReconcileSettles(w: World, s: Signer, op: Op)
    requires Inv(w) && Enabled(w, Reconcile(s, op)) && (s in w.db.markers ==> w.db.markers[s].op == op)
    ensures var u := Apply(w, Reconcile(s, op)); u.db.markers == w.db.markers - {s} && Settled(u.db, op, Success, false)
  {
    hide Inv, Open, Accepts, Completed, Owns;
    assert forall i :: 0 <= i < |op.ids| ==> op.ids[i] in IdSet(op.ids);
  }

  /** Maintenance never deletes a record of a submission that may still be broadcast or is in flight. */
  lemma CleanupSparesSubmissions(w: World, id: Id, s: Signer, h: Hash)
    requires Inv(w) && Enabled(w, Cleanup(id))
    ensures Flying(w.txs, s, h) && w.txs[h].op.kind == Retrieval ==> id !in IdSet(w.txs[h].op.ids)
    ensures s in w.armed && w.armed[s].kind == Retrieval ==> id !in IdSet(w.armed[s].ids)
  {
    hide Open, Accepts, PcsOk, FlightsOk, Owns;
    if s in w.db.markers && w.db.markers[s].op.kind == Retrieval {
      assert RecordsAgree(w.db.records, w.db.markers[s]);
    }
  }

  /** A recorded hash is never replaced: the marker stays as it is until it is cleared. */
  lemma HashWriteOnce(w: World, e: Event, s: Signer)
    requires Inv(w) && Enabled(w, e) && s in w.db.markers && w.db.markers[s].hash.Some?
    requires s in Apply(w, e).db.markers
    ensures Apply(w, e).db.markers[s] == w.db.markers[s]
  {
    hide Durable, Inv, Submittable, Open, Accepts, Completed, FinishDb, ReconcileDb, Owns, Marks, Store;
    match e
    case Persist(t) => PersistKeepsHash(w, t, s);
    case SaveHash(t) => SaveKeepsHash(w, t, s);
    case Finish(t, public) => FinishKeepsOthers(w, t, public, s);
    case Reconcile(t, op) => ReconcileKeepsOthers(w, t, op, s);
    case Serve(id, statement) => ServeKeepsMarkers(w.db, id, statement);
    case _ =>
  }

  lemma PersistKeepsHash(w: World, t: Signer, s: Signer)
    requires Enabled(w, Persist(t)) && s in w.db.markers && w.db.markers[s].hash.Some?
    ensures s in Apply(w, Persist(t)).db.markers && Apply(w, Persist(t)).db.markers[s] == w.db.markers[s]
  {
    hide Durable, Submittable, ClaimMarker, Rewritten;
    DurableShape(w.db, w.pc[t].op, Submit, false, Claim(t, Marker(w.pc[t].op, None)));
    ClaimKeepsHash(w.db.markers, t, Marker(w.pc[t].op, None), s);
  }

  lemma SaveKeepsHash(w: World, t: Signer, s: Signer)
    requires Enabled(w, SaveHash(t)) && s in w.db.markers && w.db.markers[s].hash.Some?
    ensures s in Apply(w, SaveHash(t)).db.markers && Apply(w, SaveHash(t)).db.markers[s] == w.db.markers[s]
  {
    hide Durable, ClaimMarker, Rewritten;
    DurableShape(w.db, w.pc[t].op, RecordHash(w.pc[t].sent.value), false, Claim(t, Marker(w.pc[t].op, w.pc[t].sent)));
    ClaimKeepsHash(w.db.markers, t, Marker(w.pc[t].op, w.pc[t].sent), s);
  }

  lemma FinishKeepsOthers(w: World, t: Signer, public: bool, s: Signer)
    requires Enabled(w, Finish(t, public))
    ensures var u := Apply(w, Finish(t, public));
            s in u.db.markers ==> s in w.db.markers && u.db.markers[s] == w.db.markers[s]
  {
    hide FinishDb, ClearMarker;
    if FinishDb(w.db, t, w.pc[t].op, w.pc[t].how, public).Some? {
      FinishShape(w.db, t, w.pc[t].op, w.pc[t].how, public);
      ClearKeepsOthers(w.db.markers, t, w.pc[t].op, s);
    }
  }

  lemma ReconcileKeepsOthers(w: World, t: Signer, op: Op, s: Signer)
    requires Enabled(w, Reconcile(t, op))
    ensures var u := Apply(w, Reconcile(t, op));
            s in u.db.markers ==> s in w.db.markers && u.db.markers[s] == w.db.markers[s]
  {
    hide Completed, Open, Accepts, Owns, ClearMarker;
    ClearKeepsOthers(w.db.markers, t, op, s);
  }

  lemma ServeKeepsMarkers(db: Db, id: Id, statement: string)
    requires Store(db, id, statement).Some?
    ensures Store(db, id, statement).value.markers == db.markers
  {
  }

  lemma ClaimKeepsHash(markers: map<Signer, Marker>, t: Signer, m: Marker, s: Signer)
    requires s in markers && markers[s].hash.Some? && ClaimMarker(markers, t, m).Some?
    ensures s in ClaimMarker(markers, t, m).value && ClaimMarker(markers, t, m).value[s] == markers[s]
  {
  }

  lemma ClearKeepsOthers(markers: map<Signer, Marker>, t: Signer, op: Op, s: Signer)
    ensures var r := ClearMarker(markers, t, op);
            r.Some? && s in r.value ==> s in markers && r.value[s] == markers[s]
  {
  }

  /**
   The frozen-session client completes by session status before it looks at its pending
   hash, and accepts sessions whose proof is already on chain. Such a stale intent can lose
   its marker while its broadcast is in flight: persist, launch, broadcast, crash, the
   owner confirms, reconcile.
   */
  lemma StaleIntentUnsafe(w: World, s: Signer, h: Hash)
    requires Inv(w) && Enabled(w, Persist(s)) && w.pc[s].op.kind == Retrieval && h !in w.txs
    requires Accepts(w.accepted, s, w.pc[s].op)
    ensures var next, events := Apply(w, Persist(s)), LosesMarker(s, w.pc[s].op, h);
            Feasible(next, events) && Fresh(next, events) && !Safe(After(next, events).db.markers, After(next, events).txs)
  {
    hide Feasible, After, Fresh, Open, Accepts, Safe, ArmedOk, FlightsOk, MarkersOk;
    Persisted(w, s);
    StaleRun(Apply(w, Persist(s)), s, w.pc[s].op, h);
  }

  function LosesMarker(s: Signer, op: Op, h: Hash): seq<Event> {
    [Launch(s), Broadcast(s, h), Crash, Confirm(IdSet(op.ids)), Reconcile(s, op)]
  }

  lemma Persisted(w: World, s: Signer)
    requires Inv(w) && Enabled(w, Persist(s))
    ensures var op, u := w.pc[s].op, Apply(w, Persist(s));
            && s in u.db.markers && u.db.markers[s] == Marker(op, None) && s in u.pc && u.pc[s] == Submitting(op, 0, false, None)
            && Owns(u.authority, s, op) && u.txs == w.txs && u.accepted == w.accepted
  {
    hide Durable, Open, Accepts, Safe, ArmedOk, FlightsOk, MarkersOk, PcOk, Owns, Rewritten;
    DurableShape(w.db, w.pc[s].op, Submit, false, Claim(s, Marker(w.pc[s].op, None)));
  }

  lemma StaleRun(w: World, s: Signer, op: Op, h: Hash)
    requires s in w.db.markers && w.db.markers[s] == Marker(op, None) && s in w.pc && w.pc[s] == Submitting(op, 0, false, None)
    requires Owns(w.authority, s, op) && op.kind == Retrieval && Accepts(w.accepted, s, op) && h !in w.txs
    ensures var events := LosesMarker(s, op, h);
            Feasible(w, events) && Fresh(w, events) && !Safe(After(w, events).db.markers, After(w, events).txs)
  {
    hide Owns, Feasible, After, Fresh, Safe, Open, Accepts, IdSet, Completed;
    var w2 := Apply(w, Launch(s));
    var w3 := Apply(w2, Broadcast(s, h));
    var w4 := Apply(w3, Crash);
    var events := StaleTail(w4, s, op, h);
    events := Then(w3, Crash, events);
    events := Then(w2, Broadcast(s, h), events);
    events := Then(w, Launch(s), events);
    assert events == LosesMarker(s, op, h);
  }

  lemma StaleTail(w: World, s: Signer, op: Op, h: Hash) returns (events: seq<Event>)
    requires s in w.db.markers && w.db.markers[s].op == op && s !in w.pc && h in w.txs && w.txs[h] == Tx(s, op, InFlight)
    requires Owns(w.authority, s, op) && op.kind == Retrieval && Accepts(w.accepted, s, op)
    ensures events == [Confirm(IdSet(op.ids)), Reconcile(s, op)] && Feasible(w, events) && Fresh(w, events)
    ensures !Safe(After(w, events).db.markers, After(w, events).txs)
  {
    hide Owns, Feasible, After, Fresh, Safe, Open, Accepts;
    var w5 := Apply(w, Confirm(IdSet(op.ids)));
    assert Completed(w5, s, op) by {
      assert forall i :: 0 <= i < |op.ids| ==> op.ids[i] in IdSet(op.ids);
    }
    var w6 := Apply(w5, Reconcile(s, op));
    UnmarkedFlight(w6.db.markers, w6.txs, s, h);
    Nothing(w6);
    events := Then(w5, Reconcile(s, op), []);
    events := Then(w, Confirm(IdSet(op.ids)), events);
  }

  lemma UnmarkedFlight(markers: map<Signer, Marker>, txs: map<Hash, Tx>, s: Signer, h: Hash)
    requires s !in markers && h in txs && txs[h].signer == s && txs[h].fate == InFlight
    ensures !Safe(markers, txs)
  {
    assert Flying(txs, s, h);
  }

  lemma Nothing(w: World)
    ensures Feasible(w, []) && After(w, []) == w && Fresh(w, [])
  {
  }

  lemma Then(w: World, e: Event, rest: seq<Event>) returns (events: seq<Event>)
    requires Enabled(w, e) && !e.Persist? && Feasible(Apply(w, e), rest) && Fresh(Apply(w, e), rest)
    ensures events == [e] + rest
    ensures Feasible(w, events) && After(w, events) == After(Apply(w, e), rest) && Fresh(w, events)
  {
    hide Enabled, Apply;
    events := [e] + rest;
    assert events[1..] == rest;
  }

  lemma {:induction false} NewHash(used: set<Hash>) returns (h: Hash)
    ensures h !in used && forall x :: x in used ==> |x.digits| < |h.digits|
  {
    if used == {} {
      h := Hash("");
    } else {
      var x :| x in used;
      var g := NewHash(used - {x});
      h := Hash(g.digits + x.digits + "0");
    }
  }

  /** An intent is safe in every continuation exactly when some ID of it is not accepted yet. */
  lemma FreshnessIsExact(w: World, s: Signer)
    requires Inv(w) && Enabled(w, Persist(s))
    ensures Open(w.accepted, s, w.pc[s].op) <==>
              var next := Apply(w, Persist(s));
              forall events :: Feasible(next, events) && Fresh(next, events) ==>
                Safe(After(next, events).db.markers, After(next, events).txs)
  {
    hide Enabled, Apply, Open, Accepts, Safe, ArmedOk, FlightsOk, MarkersOk, PcsOk, Feasible, After, Fresh;
    PersistReady(w, s);
    var op, next := w.pc[s].op, Apply(w, Persist(s));
    if Open(w.accepted, s, op) {
      StepInv(w, Persist(s));
      forall events | Feasible(next, events) && Fresh(next, events)
        ensures Safe(After(next, events).db.markers, After(next, events).txs)
      {
        RunSafe(next, events);
      }
    } else {
      var h := NewHash(w.txs.Keys);
      StaleIntentUnsafe(w, s, h);
    }
  }

  lemma PersistReady(w: World, s: Signer)
    requires Inv(w) && Enabled(w, Persist(s))
    ensures s in w.pc && w.pc[s].Ready? && (Open(w.accepted, s, w.pc[s].op) <== w.pc[s].op.kind != Retrieval)
    ensures !Open(w.accepted, s, w.pc[s].op) ==> Accepts(w.accepted, s, w.pc[s].op)
  {
    hide Accepts, Safe, ArmedOk, FlightsOk, MarkersOk;
  }
}
