/**
 Runs of the journal: how often one intent is launched, how a stale intent comes about,
 and what a caller can always do next, so that no marker or record stays for good.
 */
module JournalRuns {
  import opened Wrappers
  import opened ProofStore
  import opened Journal
  import B = ProofBatch
  import I = ProofIds

  // Attempts.

  /** Caller `s` is submitting in every state of the run. */
  ghost predicate KeepsSubmitting(w: World, events: seq<Event>, s: Signer)
    requires Feasible(w, events)
    decreases |events|
  {
    && s in w.pc && w.pc[s].Submitting?
    && (events == [] || KeepsSubmitting(Apply(w, events[0]), events[1..], s))
  }

  /** How many CLI children a run starts for `s`. */
  function Launches(events: seq<Event>, s: Signer): nat {
    if events == [] then 0 else (if events[0] == Launch(s) then 1 else 0) + Launches(events[1..], s)
  }

  /** Children started so far for the intent that `s` is submitting. */
  function Started(p: Pc): nat
    requires p.Submitting?
  {
    p.attempt + if p.running then 1 else 0
  }

  lemma StepStarts(w: World, e: Event, s: Signer)
    requires Enabled(w, e) && s in w.pc && w.pc[s].Submitting?
    requires s in Apply(w, e).pc && Apply(w, e).pc[s].Submitting?
    ensures Started(Apply(w, e).pc[s]) == Started(w.pc[s]) + if e == Launch(s) then 1 else 0
  {
    hide Durable, FinishDb, ReconcileDb, Accepts, Completed, Selected, Owns, Marks, Store, Submittable;
  }

  lemma {:induction false} RunStarts(w: World, events: seq<Event>, s: Signer)
    requires Feasible(w, events) && KeepsSubmitting(w, events, s)
    ensures var u := After(w, events); s in u.pc && u.pc[s].Submitting? && Started(u.pc[s]) == Started(w.pc[s]) + Launches(events, s)
    decreases |events|
  {
    hide Enabled, Apply, Started;
    if events != [] {
      StepStarts(w, events[0], s);
      RunStarts(Apply(w, events[0]), events[1..], s);
    }
  }

  /** One intent is broadcast by at most five CLI children, whatever rejects them and whatever else happens. */
  lemma AtMostFiveLaunches(w: World, s: Signer, events: seq<Event>)
    requires Inv(w) && Enabled(w, Persist(s)) && FreshIntent(w, Persist(s))
    requires Feasible(Apply(w, Persist(s)), events) && Fresh(Apply(w, Persist(s)), events)
    requires KeepsSubmitting(Apply(w, Persist(s)), events, s)
    ensures Launches(events, s) <= 5
  {
    hide Enabled, Inv, Feasible, After, Fresh, KeepsSubmitting, Launches, FreshIntent;
    var next := Apply(w, Persist(s));
    Persisted(w, s);
    StepInv(w, Persist(s));
    RunSafe(next, events);
    RunStarts(next, events, s);
    AttemptBound(After(next, events), s);
  }

  lemma AttemptBound(w: World, s: Signer)
    requires Inv(w) && s in w.pc && w.pc[s].Submitting?
    ensures Started(w.pc[s]) <= MAX_ATTEMPTS
  {
    hide Safe, ArmedOk, FlightsOk, MarkersOk, Accepts, ValidOp;
    assert PcOk(w.db.markers, w.armed, w.txs, w.accepted, s, w.pc[s]);
  }

  /** How many sequence rejections a run reports to `s`. */
  function SequenceRejections(events: seq<Event>, s: Signer): nat {
    if events == [] then 0 else (if events[0] == Rejected(s, true) then 1 else 0) + SequenceRejections(events[1..], s)
  }

  lemma StepAttempt(w: World, e: Event, s: Signer)
    requires Enabled(w, e) && s in w.pc && w.pc[s].Submitting?
    requires s in Apply(w, e).pc && Apply(w, e).pc[s].Submitting?
    ensures Apply(w, e).pc[s].attempt == w.pc[s].attempt + if e == Rejected(s, true) then 1 else 0
  {
    hide Durable, FinishDb, ReconcileDb, Accepts, Completed, Selected, Owns, Marks, Store, Submittable;
  }

  lemma {:induction false} RunAttempts(w: World, events: seq<Event>, s: Signer)
    requires Feasible(w, events) && KeepsSubmitting(w, events, s)
    ensures var u := After(w, events);
            s in u.pc && u.pc[s].Submitting? && u.pc[s].attempt == w.pc[s].attempt + SequenceRejections(events, s)
    decreases |events|
  {
    hide Enabled, Apply;
    if events != [] {
      StepAttempt(w, events[0], s);
      RunAttempts(Apply(w, events[0]), events[1..], s);
    }
  }

  /** A child is started again only after a sequence rejection: over any run, at most once more than there were such. */
  lemma RetryNeedsSequenceRejection(w: World, s: Signer, events: seq<Event>)
    requires Inv(w) && Enabled(w, Persist(s)) && Feasible(Apply(w, Persist(s)), events) && KeepsSubmitting(Apply(w, Persist(s)), events, s)
    ensures Launches(events, s) <= 1 + SequenceRejections(events, s)
  {
    hide Enabled, Inv, Feasible, After, KeepsSubmitting, Launches, SequenceRejections;
    var next := Apply(w, Persist(s));
    Persisted(w, s);
    RunStarts(next, events, s);
    RunAttempts(next, events, s);
  }

  /** A rejected child is tried again exactly after a sequence rejection with attempts left, and is withdrawn otherwise. */
  lemma RejectionIsRetried(w: World, s: Signer, sequence: bool)
    requires Inv(w) && Enabled(w, Rejected(s, sequence))
    ensures var u := Apply(w, Rejected(s, sequence));
            && s in u.pc && s !in u.armed
            && (Enabled(u, Launch(s)) <==> sequence && w.pc[s].attempt < 4)
            && (!Enabled(u, Launch(s)) ==> u.pc[s] == Resolved(w.pc[s].op, NotIncluded))
  {
    hide Safe, ArmedOk, FlightsOk, MarkersOk;
  }

  // Granted steps.

  /** The hash of a broadcast can always be recorded. */
  lemma HashCanBeRecorded(w: World, s: Signer)
    requires Inv(w) && Running(w, s) && w.pc[s].sent.Some?
    ensures Enabled(w, SaveHash(s))
  {
    hide Safe, ArmedOk, FlightsOk, Durable, Open, Accepts, Still, ValidOp;
    var p := w.pc[s];
    assert PcOk(w.db.markers, w.armed, w.txs, w.accepted, s, p);
    assert p.op.kind == Retrieval ==> RecordsAgree(w.db.records, w.db.markers[s]);
    assert IdSet(RecordIds(p.op)) <= w.db.records.Keys;
    DurableShape(w.db, p.op, RecordHash(p.sent.value), false, Claim(s, Marker(p.op, p.sent)));
  }

  /** A valid intent can be written whenever fewer than four signers have markers and its records are idle and not complete. */
  lemma IntentCanBeWritten(w: World, s: Signer)
    requires Inv(w) && s in w.pc && w.pc[s].Ready? && ValidOp(w.pc[s].op) && |w.db.markers| < 4
    requires Submittable(w, s, w.pc[s].op)
    ensures Enabled(w, Persist(s))
  {
    hide Safe, ArmedOk, FlightsOk, Durable, Open, Accepts, Still, ValidOp, Completed;
    var op := w.pc[s].op;
    assert PcOk(w.db.markers, w.armed, w.txs, w.accepted, s, w.pc[s]);
    assert IdSet(RecordIds(op)) <= w.db.records.Keys;
    DurableShape(w.db, op, Submit, false, Claim(s, Marker(op, None)));
  }

  // A stale intent from the empty store.

  lemma Next(w: World, e: Event, rest: seq<Event>)
    requires Enabled(w, e) && FreshIntent(w, e) && Feasible(Apply(w, e), rest) && Fresh(Apply(w, e), rest)
    ensures Feasible(w, [e] + rest) && Fresh(w, [e] + rest) && After(w, [e] + rest) == After(Apply(w, e), rest)
  {
    hide Enabled, Apply, FreshIntent;
    assert ([e] + rest)[1..] == rest;
  }

  /** The world of one session and its one signer, nothing confirmed. */
  ghost predicate Small(w: World, s: Signer, id: Id) {
    && Inv(w) && w.authority == map[id := s] && w.confirmed == {}
    && w.db.records.Keys <= {id} && w.db.markers.Keys <= {s} && w.pc.Keys <= {s} && 1 <= |id.text| <= MAX_ID_BYTES
  }

  function Proof(id: Id): Op {
    Op(Retrieval, [id])
  }

  /** Serving the session and taking up its proof leads to an intent. */
  lemma ServedIsReady(w: World, s: Signer, id: Id, statement: string)
    requires Small(w, s, id) && w.db.records == map[] && w.db.markers == map[] && w.pc == map[]
    ensures Enabled(w, Serve(id, statement))
    ensures var served := Apply(w, Serve(id, statement));
            && Enabled(served, Begin(s, Proof(id)))
            && var u := Apply(served, Begin(s, Proof(id)));
            && Small(u, s, id) && u.txs == w.txs && u.accepted == w.accepted && s in u.pc && u.pc[s] == Ready(Proof(id))
            && Enabled(u, Persist(s))
  {
    hide Inv, Enabled, Apply;
    ServeStep(w, s, id, statement);
    var served := Apply(w, Serve(id, statement));
    BeginStep(served, s, id, statement);
    ReadyStep(Apply(served, Begin(s, Proof(id))), s, id, statement);
  }

  lemma ServeStep(w: World, s: Signer, id: Id, statement: string)
    requires Small(w, s, id) && w.db.records == map[]
    ensures Enabled(w, Serve(id, statement))
    ensures var u := Apply(w, Serve(id, statement));
            && Small(u, s, id) && u == w.(db := u.db)
            && u.db.records == map[id := Record(statement, false, None)] && u.db.markers == w.db.markers
  {
    hide Inv, Accepts;
    StepInv(w, Serve(id, statement));
  }

  lemma BeginStep(w: World, s: Signer, id: Id, statement: string)
    requires Small(w, s, id) && s !in w.pc && s !in w.db.markers
    ensures Enabled(w, Begin(s, Proof(id)))
    ensures var u := Apply(w, Begin(s, Proof(id)));
            Small(u, s, id) && u == w.(pc := u.pc) && s in u.pc && u.pc[s] == Ready(Proof(id))
  {
    hide Inv, Accepts, Selected;
    AnySession(w.accepted, s, id);
    OneId(id);
    StepInv(w, Begin(s, Proof(id)));
  }

  lemma ReadyStep(w: World, s: Signer, id: Id, statement: string)
    requires Small(w, s, id) && w.db.markers == map[] && w.db.records == map[id := Record(statement, false, None)]
    requires s in w.pc && w.pc[s] == Ready(Proof(id))
    ensures Enabled(w, Persist(s))
  {
    hide Inv, Durable, Accepts;
    OneId(id);
    DurableShape(w.db, Proof(id), Submit, false, Claim(s, Marker(Proof(id), None)));
  }

  lemma OneId(id: Id)
    ensures IdSet([id]) == {id} && Proof(id).ids[0] == id
  {
    assert [id][0] == id;
    assert forall x :: x in IdSet([id]) ==> x == id;
  }

  lemma AnySession(accepted: set<Mark>, s: Signer, id: Id)
    ensures Selected(accepted, s, Proof(id))
  {
  }

  /** The submission that succeeds. */
  function Submission(s: Signer, h: Hash): seq<Event> {
    [Persist(s)] + ([Launch(s)] + ([Broadcast(s, h)] + ([SaveHash(s)] + ([Commit(h)] + ([Poll(s)] + ([Finish(s, false)] + []))))))
  }

  lemma PersistStep(w: World, s: Signer, id: Id)
    requires Small(w, s, id) && s in w.pc && w.pc[s] == Ready(Proof(id)) && Enabled(w, Persist(s)) && FreshIntent(w, Persist(s))
    ensures var u := Apply(w, Persist(s));
            && Small(u, s, id) && s in u.pc && u.pc[s] == Submitting(Proof(id), 0, false, None) && u.txs == w.txs && u.accepted == w.accepted
  {
    hide Inv, Accepts, Durable;
    StepInv(w, Persist(s));
    Persisted(w, s);
    DurableShape(w.db, Proof(id), Submit, false, Claim(s, Marker(Proof(id), None)));
  }

  lemma LaunchStep(w: World, s: Signer, id: Id)
    requires Small(w, s, id) && s in w.pc && w.pc[s] == Submitting(Proof(id), 0, false, None)
    ensures Enabled(w, Launch(s))
    ensures var u := Apply(w, Launch(s));
            && Small(u, s, id) && s in u.pc && u.pc[s] == Submitting(Proof(id), 0, true, None) && s in u.armed && u.armed[s] == Proof(id)
            && u.txs == w.txs && u.accepted == w.accepted
  {
    hide Inv, Accepts;
    StepInv(w, Launch(s));
  }

  lemma BroadcastStep(w: World, s: Signer, id: Id, h: Hash)
    requires Small(w, s, id) && s in w.pc && w.pc[s] == Submitting(Proof(id), 0, true, None) && s in w.armed && w.armed[s] == Proof(id) && h !in w.txs
    ensures Enabled(w, Broadcast(s, h))
    ensures var u := Apply(w, Broadcast(s, h));
            && Small(u, s, id) && s in u.pc && u.pc[s] == Submitting(Proof(id), 0, true, Some(h))
            && h in u.txs && u.txs[h] == Tx(s, Proof(id), InFlight)
  {
    hide Inv, Accepts;
    StepInv(w, Broadcast(s, h));
  }

  lemma SaveHashStep(w: World, s: Signer, id: Id, h: Hash)
    requires Small(w, s, id) && s in w.pc && w.pc[s] == Submitting(Proof(id), 0, true, Some(h)) && h in w.txs && w.txs[h] == Tx(s, Proof(id), InFlight)
    ensures Enabled(w, SaveHash(s))
    ensures var u := Apply(w, SaveHash(s));
            && Small(u, s, id) && s in u.pc && u.pc[s] == Polling(Proof(id), h) && u.txs == w.txs && s in u.db.markers && u.db.markers[s].op == Proof(id)
  {
    hide Inv, Accepts, Durable;
    var op := Proof(id);
    Marked(w, s, id, h);
    DurableShape(w.db, op, RecordHash(h), false, Claim(s, Marker(op, Some(h))));
    StepInv(w, SaveHash(s));
  }

  lemma Marked(w: World, s: Signer, id: Id, h: Hash)
    requires Inv(w) && s in w.pc && w.pc[s] == Submitting(Proof(id), 0, true, Some(h))
    ensures s in w.db.markers && w.db.markers[s] == Marker(Proof(id), None) && ValidOp(Proof(id)) && IdSet([id]) <= w.db.records.Keys
  {
    hide Safe, ArmedOk, FlightsOk, Accepts, ValidOp;
    assert PcOk(w.db.markers, w.armed, w.txs, w.accepted, s, w.pc[s]);
    assert RecordsAgree(w.db.records, w.db.markers[s]);
    assert [id][0] == id;
  }

  lemma CommitStep(w: World, s: Signer, id: Id, h: Hash)
    requires Small(w, s, id) && s in w.pc && w.pc[s] == Polling(Proof(id), h) && h in w.txs && w.txs[h] == Tx(s, Proof(id), InFlight)
    requires s in w.db.markers && w.db.markers[s].op == Proof(id)
    ensures Enabled(w, Commit(h))
    ensures var u := Apply(w, Commit(h));
            && Small(u, s, id) && u.pc == w.pc && u.db == w.db && h in u.txs && u.txs[h].fate == Committed && Accepts(u.accepted, s, Proof(id))
  {
    hide Inv;
    StepInv(w, Commit(h));
    assert Mark(s, Retrieval, [id][0]) in Marks(w.txs[h]);
  }

  lemma PollStep(w: World, s: Signer, id: Id, h: Hash)
    requires Small(w, s, id) && s in w.pc && w.pc[s] == Polling(Proof(id), h) && h in w.txs && w.txs[h].fate == Committed
    ensures Enabled(w, Poll(s))
    ensures var u := Apply(w, Poll(s));
            Small(u, s, id) && s in u.pc && u.pc[s] == Resolved(Proof(id), Success) && u.db == w.db && u.accepted == w.accepted
  {
    hide Inv, Accepts;
    StepInv(w, Poll(s));
  }

  lemma FinishStep(w: World, s: Signer, id: Id)
    requires Small(w, s, id) && s in w.pc && w.pc[s] == Resolved(Proof(id), Success) && s in w.db.markers && w.db.markers[s].op == Proof(id)
    ensures Enabled(w, Finish(s, false))
    ensures var u := Apply(w, Finish(s, false));
            Small(u, s, id) && u.pc == map[] && u.db == Db(map[], map[]) && u.accepted == w.accepted
  {
    hide Inv, Accepts, Durable;
    var u := Apply(w, Finish(s, false));
    StepInv(w, Finish(s, false));
    EndingSettles(w, s, false);
    DurableShape(w.db, Proof(id), Keep, true, Clear(s, Proof(id)));
    OneId(id);
  }

  /** A submission that goes through empties the store and leaves its evidence on chain. */
  lemma SubmissionRuns(w: World, s: Signer, id: Id, h: Hash)
    requires Small(w, s, id) && s in w.pc && w.pc[s] == Ready(Proof(id)) && Enabled(w, Persist(s)) && FreshIntent(w, Persist(s)) && h !in w.txs
    ensures Feasible(w, Submission(s, h)) && Fresh(w, Submission(s, h))
    ensures var u := After(w, Submission(s, h));
            Small(u, s, id) && u.pc == map[] && u.db == Db(map[], map[]) && Accepts(u.accepted, s, Proof(id))
  {
    hide Small, Enabled, Apply, Feasible, After, Fresh, Accepts;
    PersistStep(w, s, id);
    var w1 := Apply(w, Persist(s));
    LaunchStep(w1, s, id);
    var w2 := Apply(w1, Launch(s));
    BroadcastStep(w2, s, id, h);
    var w3 := Apply(w2, Broadcast(s, h));
    SaveHashStep(w3, s, id, h);
    var w4 := Apply(w3, SaveHash(s));
    CommitStep(w4, s, id, h);
    var w5 := Apply(w4, Commit(h));
    PollStep(w5, s, id, h);
    var w6 := Apply(w5, Poll(s));
    FinishStep(w6, s, id);
    var w7 := Apply(w6, Finish(s, false));
    Nothing(w7);
    Next(w6, Finish(s, false), []);
    Next(w5, Poll(s), [Finish(s, false)] + []);
    Next(w4, Commit(h), [Poll(s)] + ([Finish(s, false)] + []));
    Next(w3, SaveHash(s), [Commit(h)] + ([Poll(s)] + ([Finish(s, false)] + [])));
    Next(w2, Broadcast(s, h), [SaveHash(s)] + ([Commit(h)] + ([Poll(s)] + ([Finish(s, false)] + []))));
    Next(w1, Launch(s), [Broadcast(s, h)] + ([SaveHash(s)] + ([Commit(h)] + ([Poll(s)] + ([Finish(s, false)] + [])))));
    Next(w, Persist(s), [Launch(s)] + ([Broadcast(s, h)] + ([SaveHash(s)] + ([Commit(h)] + ([Poll(s)] + ([Finish(s, false)] + []))))));
  }

  /** Serve, submit, commit, finish, serve again, begin. */
  function ToStale(s: Signer, id: Id, statement: string, h: Hash): seq<Event> {
    [Serve(id, statement)] + ([Begin(s, Proof(id))] + (Submission(s, h) + ([Serve(id, statement)] + ([Begin(s, Proof(id))] + []))))
  }

  lemma {:induction false} Joined(w: World, a: seq<Event>, b: seq<Event>)
    requires Feasible(w, a) && Fresh(w, a) && Feasible(After(w, a), b) && Fresh(After(w, a), b)
    ensures Feasible(w, a + b) && Fresh(w, a + b) && After(w, a + b) == After(After(w, a), b)
    decreases |a|
  {
    hide Enabled, Apply, FreshIntent;
    if a == [] {
      assert a + b == b;
    } else {
      assert (a + b)[1..] == a[1..] + b;
      Joined(Apply(w, a[0]), a[1..], b);
    }
  }

  /**
   A stale intent is reachable from the empty store for every session, signer, proof and
   hash: every step of the run is safe and fresh, and at its end the frozen-session client
   may write an intent whose proof is already accepted.
   */
  lemma StaleIsReachable(s: Signer, id: Id, statement: string, h: Hash)
    requires 1 <= |id.text| <= MAX_ID_BYTES
    ensures var w, events := Init(map[id := s]), ToStale(s, id, statement, h);
            && Feasible(w, events) && Fresh(w, events)
            && var u := After(w, events);
            Inv(u) && Enabled(u, Persist(s)) && !FreshIntent(u, Persist(s))
  {
    hide Enabled, Apply, Feasible, After, Fresh, Accepts, Inv;
    var w := Init(map[id := s]);
    InitSafe(map[id := s]);
    ServedIsReady(w, s, id, statement);
    var w1 := Apply(w, Serve(id, statement));
    var w2 := Apply(w1, Begin(s, Proof(id)));
    NothingAccepted(w2.accepted, s, id);
    SubmissionRuns(w2, s, id, h);
    var w3 := After(w2, Submission(s, h));
    ServedIsReady(w3, s, id, statement);
    var w4 := Apply(w3, Serve(id, statement));
    var w5 := Apply(w4, Begin(s, Proof(id)));
    Nothing(w5);
    Next(w4, Begin(s, Proof(id)), []);
    Next(w3, Serve(id, statement), [Begin(s, Proof(id))] + []);
    Joined(w2, Submission(s, h), [Serve(id, statement)] + ([Begin(s, Proof(id))] + []));
    Next(w1, Begin(s, Proof(id)), Submission(s, h) + ([Serve(id, statement)] + ([Begin(s, Proof(id))] + [])));
    Next(w, Serve(id, statement), [Begin(s, Proof(id))] + (Submission(s, h) + ([Serve(id, statement)] + ([Begin(s, Proof(id))] + []))));
  }

  lemma NothingAccepted(accepted: set<Mark>, s: Signer, id: Id)
    requires accepted == {}
    ensures !Accepts(accepted, s, Proof(id))
  {
    assert Proof(id).ids[0] == id;
  }

  // Recovery.

  /** How a caller takes up a recorded hash again, by its marker or by its records. */
  function TakeUp(s: Signer, m: Marker): Event
    requires m.hash.Some?
  {
    if m.op.kind == Retrieval then ResumeRecords(s, m.op, m.hash.value) else Resume(s)
  }

  /**
   A submission whose hash is recorded survives any crash: once its transaction has settled,
   taking it up, polling and finishing clears the marker and settles the records.
   */
  lemma CrashRecovers(w: World, s: Signer, public: bool)
    requires Inv(w) && s !in w.pc && s in w.db.markers && w.db.markers[s].hash.Some? && w.db.markers[s].op.ids != []
    requires w.db.markers[s].hash.value in w.txs ==> w.txs[w.db.markers[s].hash.value].fate != InFlight
    ensures Enabled(w, TakeUp(s, w.db.markers[s]))
    ensures var m, w1 := w.db.markers[s], Apply(w, TakeUp(s, w.db.markers[s]));
            && Enabled(w1, Poll(s)) && Enabled(Apply(w1, Poll(s)), Finish(s, public))
            && var u := Apply(Apply(w1, Poll(s)), Finish(s, public));
            && s !in u.db.markers && s !in u.pc
            && (w.txs[m.hash.value].fate == Committed ==> Settled(u.db, m.op, Success, public))
            && (w.txs[m.hash.value].fate == Failed ==> Settled(u.db, m.op, FailedTx(m.hash.value), public))
  {
    hide Inv, FinishDb, Settled, Owns;
    MarkerFacts(w, s);
    var take := TakeUp(s, w.db.markers[s]);
    var w1 := Apply(w, take);
    StepInv(w, take);
    var w2 := Apply(w1, Poll(s));
    StepInv(w1, Poll(s));
    EndingSettles(w2, s, public);
  }

  lemma MarkerFacts(w: World, s: Signer)
    requires Inv(w) && s in w.db.markers && w.db.markers[s].hash.Some?
    ensures w.db.markers[s].hash.value in w.txs && Owns(w.authority, s, w.db.markers[s].op)
    ensures w.db.markers[s].op.kind == Retrieval ==> forall i :: 0 <= i < |w.db.markers[s].op.ids| ==>
              w.db.markers[s].op.ids[i] in w.db.records && w.db.records[w.db.markers[s].op.ids[i]].hash == w.db.markers[s].hash
  {
    hide Safe, ArmedOk, FlightsOk, PcsOk, Owns;
    assert w.db.markers[s].op.kind == Retrieval ==> RecordsAgree(w.db.records, w.db.markers[s]);
  }

  /**
   An intent without a hash that nobody works on is reconciled away once the chain shows the
   whole operation: its samples, its audit or its generation, or a completed session.
   */
  lemma IntentReconciles(w: World, s: Signer)
    requires Inv(w) && s !in w.pc && s in w.db.markers && w.db.markers[s].op.kind != Legacy
    requires w.db.markers[s].hash == None || w.db.markers[s].op.kind in {Audit, Retrieval}
    requires Accepts(w.accepted, s, w.db.markers[s].op)
    requires w.db.markers[s].op.kind == Retrieval ==> Completed(w, s, w.db.markers[s].op)
    ensures var op := w.db.markers[s].op;
            && Enabled(w, Reconcile(s, op))
            && var u := Apply(w, Reconcile(s, op));
            u.db.markers == w.db.markers - {s} && Settled(u.db, op, Success, false)
  {
    hide Accepts, Completed, Owns, Safe, ArmedOk, FlightsOk, PcsOk, ReconcileDb, Settled;
    var op := w.db.markers[s].op;
    assert Enabled(w, Reconcile(s, op));
    ReconcileSettles(w, s, op);
  }

  /** A holder can always let go, which leaves its marker and records to whoever takes them up. */
  lemma HolderCanQuit(w: World, s: Signer)
    requires Inv(w) && s in w.pc
    ensures Enabled(w, Quit(s))
    ensures var u := Apply(w, Quit(s));
            && s !in u.pc && u.db == w.db
            && (s in w.db.markers && w.db.markers[s].hash.Some? && w.db.markers[s].op.ids != [] ==> Enabled(u, TakeUp(s, w.db.markers[s])))
  {
    hide Inv, Owns;
    if s in w.db.markers && w.db.markers[s].hash.Some? {
      MarkerFacts(w, s);
    }
  }

  /** A caller whose child broadcast nothing can withdraw its intent: the marker goes and the records are free again. */
  lemma UnsentIsWithdrawn(w: World, s: Signer, public: bool)
    requires Inv(w) && s in w.pc && w.pc[s].Submitting? && (w.pc[s].running ==> w.pc[s].sent == None)
    ensures Enabled(w, NotSent(s)) && Enabled(Apply(w, NotSent(s)), Finish(s, public))
    ensures var u := Apply(Apply(w, NotSent(s)), Finish(s, public));
            s !in u.pc && u.db.markers == w.db.markers - {s} && Settled(u.db, w.pc[s].op, NotIncluded, public)
  {
    hide FinishDb, Settled, Owns, Safe, ArmedOk, FlightsOk, MarkersOk, Open;
    assert PcOk(w.db.markers, w.armed, w.txs, w.accepted, s, w.pc[s]);
    StepInv(w, NotSent(s));
    EndingSettles(Apply(w, NotSent(s)), s, public);
  }

  /** Whatever the session status, maintenance may remove a record that holds neither a submission nor a hash and no other, alone. */
  lemma SpareRecordsGo(w: World, id: Id)
    requires id in w.db.records
    ensures Enabled(w, Cleanup(id)) <==> !w.db.records[id].submitting && w.db.records[id].hash == None
    ensures Enabled(w, Cleanup(id)) ==>
              var u := Apply(w, Cleanup(id));
              && id !in u.db.records && u.db.markers == w.db.markers
              && forall other :: other in w.db.records && other != id ==> other in u.db.records && u.db.records[other] == w.db.records[other]
  {
  }

  // Batches.

  /** A generation or an audit can be taken up exactly while the chain does not show it and its signer is free. */
  lemma SingleCanBegin(w: World, s: Signer, op: Op)
    requires op.kind in {GenerationV3, Audit} && |op.ids| == 1
    ensures Enabled(w, Begin(s, op)) <==> s !in w.pc && s !in w.db.markers && !Accepts(w.accepted, s, op)
  {
  }

  /** While a sample of the slot is missing on chain, a free signer can take up the next batch, which is not empty. */
  lemma BatchCanBegin(w: World, s: Signer, session: string, challenges: seq<B.Challenge>, slot: nat, k: nat)
    requires forall i :: 0 <= i < |challenges| ==> challenges[i].ordinal < I.MAX_SAMPLES
    requires k < |challenges| && challenges[k].slot == slot
    requires Mark(s, RetrievalV3, Id(I.IdOf(session, challenges[k].ordinal))) !in w.accepted && s !in w.pc && s !in w.db.markers
    ensures var batch := B.First(B.Pending(challenges, Bitmap(w.accepted, s, session), slot), B.MAX_BATCH);
            batch != [] && Enabled(w, Begin(s, Op(RetrievalV3, BatchIds(session, batch))))
  {
    hide B.Pending, B.First, I.IdOf;
    var accepted := Bitmap(w.accepted, s, session);
    assert challenges[k].ordinal !in accepted;
    B.PendingFacts(challenges, accepted, slot);
    var batch := B.First(B.Pending(challenges, accepted, slot), B.MAX_BATCH);
    FirstSome(B.Pending(challenges, accepted, slot));
    assert BatchOf(w.accepted, s, Op(RetrievalV3, BatchIds(session, batch)), session, challenges, slot);
  }

  lemma FirstSome(pending: seq<nat>)
    requires pending != []
    ensures B.First(pending, B.MAX_BATCH) != []
  {
  }

  /** Every batch that a v3 session can select, 64 samples included, is a valid operation. */
  lemma BatchIsValid(session: string, ordinals: seq<nat>)
    requires I.Canonical(session, ordinals) && |ordinals| <= 64
    ensures ValidOp(Op(RetrievalV3, BatchIds(session, ordinals)))
  {
    hide I.IdOf;
    var ids := BatchIds(session, ordinals);
    forall i | 0 <= i < |ids|
      ensures 1 <= |ids[i].text| <= MAX_ID_BYTES
    {
      IdFits(session, ordinals[i]);
    }
    forall i, j | 0 <= i < j < |ids|
      ensures ids[i] != ids[j]
    {
      IdsDiffer(session, ordinals[i], ordinals[j]);
    }
  }

  lemma IdFits(session: string, n: nat)
    requires I.IsSession(session) && n < I.MAX_SAMPLES
    ensures 1 <= |I.IdOf(session, n)| <= MAX_ID_BYTES
  {
    assert |I.Digits(n / 100)| == 1;
    assert n >= 10 ==> |I.Digits(n / 10)| <= 2;
  }

  lemma IdsDiffer(session: string, m: nat, n: nat)
    requires I.IsSession(session) && m != n
    ensures I.IdOf(session, m) != I.IdOf(session, n)
  {
    I.IdParts(session, m);
    I.IdParts(session, n);
    I.DigitsRoundTrip(m);
    I.DigitsRoundTrip(n);
  }
}
