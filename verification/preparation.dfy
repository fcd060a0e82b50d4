/**
 The preparation gate: for each key one caller prepares and the others wait for it. A
 waiter retries when the owner was canceled and fails with the owner's permanent error.
 A caller may look for the artifact before it claims the key, and an owner always looks
 before it builds; a look can fail on an artifact that is damaged. The artifact can also
 appear or be lost without the gate.
 */
module Preparation {

  datatype Key = Key(text: string)

  datatype Outcome = Prepared | Canceled | Permanent(error: string)

  /** A preparation attempt: open while its owner works on it. */
  datatype Attempt = Attempt(key: Key, owner: nat, outcome: Outcome, open: bool)

  /** Where a caller is; `Returned` holds what it gave back to its own caller. */
  datatype Caller =
    | Checking(key: Key)
    | Claiming(key: Key)
    | Waiting(key: Key, attempt: nat)
    | Owning(key: Key, attempt: nat)
    | Building(key: Key, attempt: nat)
    | Returned(key: Key, outcome: Outcome)

  datatype Gate = Gate(active: map<Key, nat>, attempts: seq<Attempt>)

  /** `prepared` holds the keys whose artifact is there. */
  datatype World = World(gate: Gate, callers: map<nat, Caller>, canceled: set<nat>, prepared: set<Key>)

  predicate Owner(p: Caller) {
    p.Owning? || p.Building?
  }

  function Opened(g: Gate, c: nat, key: Key): Gate {
    Gate(g.active[key := |g.attempts|], g.attempts + [Attempt(key, c, Prepared, true)])
  }

  function Closed(g: Gate, a: nat, outcome: Outcome): Gate
    requires a < |g.attempts|
  {
    Gate(g.active - {g.attempts[a].key}, g.attempts[a := g.attempts[a].(outcome := outcome, open := false)])
  }

  /** The registry of running preparations. Attempts stay readable to the callers that joined them. */
  class RetrievalPreparations {
    var active: map<Key, nat>
    var attempts: seq<Attempt>

    ghost function Value(): Gate
      reads this
    {
      Gate(active, attempts)
    }

    constructor ()
      ensures Value() == Gate(map[], [])
    {
      active, attempts := map[], [];
    }

    /** Joins the running attempt of a key, or starts one as its owner. */
    method ClaimPreparation(c: nat, key: Key) returns (attempt: nat, claimed: bool)
      modifies this
      ensures claimed <==> key !in old(active)
      ensures if claimed then Value() == Opened(old(Value()), c, key) && attempt == |old(attempts)|
              else Value() == old(Value()) && attempt == active[key]
    {
      if key in active {
        return active[key], false;
      }
      attempt, claimed := |attempts|, true;
      active, attempts := active[key := |attempts|], attempts + [Attempt(key, c, Prepared, true)];
    }

    /** The owner records its outcome and frees the key before it wakes the waiters. */
    method FinishPreparation(attempt: nat, outcome: Outcome)
      requires attempt < |attempts|
      modifies this
      ensures Value() == Closed(old(Value()), attempt, outcome)
    {
      var a := attempts[attempt];
      attempts := attempts[attempt := a.(outcome := outcome, open := false)];
      active := active - {a.key};
    }
  }

  datatype Event =
    | Arrive(c: nat, key: Key)
    | Look(c: nat)
    | LookFails(c: nat, error: string)
    | Claim(c: nat)
    | LookAgain(c: nat)
    | Finish(c: nat, outcome: Outcome)
    | Wake(c: nat)
    | GiveUp(c: nat)
    | Cancel(c: nat)
    | Appear(key: Key)
    | Lose(key: Key)

  ghost predicate Enabled(w: World, e: Event) {
    match e
    case Arrive(c, key) => c !in w.callers
    case Look(c) => c in w.callers && w.callers[c].Checking?
    case LookFails(c, error) => c in w.callers && w.callers[c].Checking? && c !in w.canceled
    case Claim(c) => c in w.callers && (w.callers[c].Checking? || w.callers[c].Claiming?)
    case LookAgain(c) => c in w.callers && w.callers[c].Owning? && w.callers[c].key !in w.prepared
    case Finish(c, outcome) =>
      && c in w.callers && Owner(w.callers[c]) && w.callers[c].attempt < |w.gate.attempts|
      && (outcome == Prepared && w.callers[c].Owning? ==> w.callers[c].key in w.prepared)
    case Wake(c) => c in w.callers && w.callers[c].Waiting? && w.callers[c].attempt < |w.gate.attempts| && !w.gate.attempts[w.callers[c].attempt].open
    case GiveUp(c) => c in w.callers && w.callers[c].Waiting? && c in w.canceled
    case Cancel(c) => true
    case Appear(key) => true
    case Lose(key) => true
  }

  ghost function Apply(w: World, e: Event): World
    requires Enabled(w, e)
  {
    match e
    case Arrive(c, key) => w.(callers := w.callers[c := Checking(key)])
    case Look(c) =>
      var key := w.callers[c].key;
      w.(callers := w.callers[c :=
        if c in w.canceled then Returned(key, Canceled)
        else if key in w.prepared then Returned(key, Prepared)
        else Claiming(key)])
    case LookFails(c, error) => w.(callers := w.callers[c := Returned(w.callers[c].key, Permanent(error))])
    case Claim(c) =>
      var key := w.callers[c].key;
      if c in w.canceled then w.(callers := w.callers[c := Returned(key, Canceled)])
      else if key in w.gate.active then w.(callers := w.callers[c := Waiting(key, w.gate.active[key])])
      else w.(gate := Opened(w.gate, c, key), callers := w.callers[c := Owning(key, |w.gate.attempts|)])
    case LookAgain(c) => w.(callers := w.callers[c := Building(w.callers[c].key, w.callers[c].attempt)])
    case Finish(c, outcome) =>
      var p := w.callers[c];
      w.(gate := Closed(w.gate, p.attempt, outcome),
         callers := w.callers[c := Returned(p.key, if outcome == Prepared && c in w.canceled then Canceled else outcome)],
         prepared := if outcome == Prepared then w.prepared + {p.key} else w.prepared)
    case Wake(c) =>
      var p := w.callers[c];
      var outcome := w.gate.attempts[p.attempt].outcome;
      w.(callers := w.callers[c :=
        if c in w.canceled then Returned(p.key, Canceled)
        else if outcome.Permanent? then Returned(p.key, outcome)
        else Checking(p.key)])
    case GiveUp(c) => w.(callers := w.callers[c := Returned(w.callers[c].key, Canceled)])
    case Cancel(c) => w.(canceled := w.canceled + {c})
    case Appear(key) => w.(prepared := w.prepared + {key})
    case Lose(key) => w.(prepared := w.prepared - {key})
  }

  /** An active attempt is open, on its key, and its owner is working on it. */
  ghost predicate ActiveOk(w: World, key: Key) {
    key in w.gate.active ==>
      && w.gate.active[key] < |w.gate.attempts|
      && var a := w.gate.attempts[w.gate.active[key]];
      && a.open && a.key == key && a.owner in w.callers
      && w.callers[a.owner] in {Owning(key, w.gate.active[key]), Building(key, w.gate.active[key])}
  }

  ghost predicate Working(w: World, c: nat, key: Key, a: nat) {
    && a < |w.gate.attempts| && w.gate.attempts[a].key == key && w.gate.attempts[a].owner == c && w.gate.attempts[a].open
    && key in w.gate.active && w.gate.active[key] == a
  }

  /** An owner works on the active attempt of its key. */
  ghost predicate CallerOk(w: World, c: nat) {
    c in w.callers ==>
      match w.callers[c]
      case Checking(key) => true
      case Claiming(key) => true
      case Waiting(key, a) => a < |w.gate.attempts| && w.gate.attempts[a].key == key
      case Owning(key, a) => Working(w, c, key, a)
      case Building(key, a) => Working(w, c, key, a)
      case Returned(key, outcome) => outcome == Canceled ==> c in w.canceled || exists a :: Interrupted(w.gate, a, c)
  }

  /** Attempt `a` of owner `c` ended canceled. */
  predicate Interrupted(g: Gate, a: nat, c: nat) {
    a < |g.attempts| && g.attempts[a].owner == c && !g.attempts[a].open && g.attempts[a].outcome == Canceled
  }

  ghost predicate Inv(w: World) {
    (forall key :: ActiveOk(w, key)) && forall c :: CallerOk(w, c)
  }

  lemma StepInv(w: World, e: Event)
    requires Inv(w) && Enabled(w, e)
    ensures Inv(Apply(w, e))
  {
    var u := Apply(w, e);
    forall key
      ensures ActiveOk(u, key)
    {
      StepActive(w, e, key);
    }
    forall c
      ensures CallerOk(u, c)
    {
      StepCaller(w, e, c);
    }
  }

  lemma StepActive(w: World, e: Event, key: Key)
    requires Inv(w) && Enabled(w, e)
    ensures ActiveOk(Apply(w, e), key)
  {
    assert ActiveOk(w, key);
    match e
    case Claim(c) => assert CallerOk(w, c);
    case LookAgain(c) => assert CallerOk(w, c);
    case Finish(c, outcome) => assert CallerOk(w, c) && ActiveOk(w, w.callers[c].key);
    case _ =>
  }

  lemma StepCaller(w: World, e: Event, c: nat)
    requires Inv(w) && Enabled(w, e)
    ensures CallerOk(Apply(w, e), c)
  {
    assert CallerOk(w, c);
    match e
    case Claim(d) =>
      assert CallerOk(w, d) && ActiveOk(w, w.callers[d].key);
      if c in w.callers {
        assert ActiveOk(w, w.callers[c].key);
      }
      assert forall a :: Interrupted(w.gate, a, c) ==> Interrupted(Apply(w, e).gate, a, c);
    case Finish(d, outcome) => FinishCaller(w, d, outcome, c);
    case Wake(d) =>
      assert CallerOk(w, d);
      SameAttempts(w, e);
    case _ => SameAttempts(w, e);
  }

  lemma SameAttempts(w: World, e: Event)
    requires Enabled(w, e) && !e.Finish? && !e.Claim?
    ensures Apply(w, e).gate == w.gate
  {
  }

  lemma FinishCaller(w: World, d: nat, outcome: Outcome, c: nat)
    requires Inv(w) && Enabled(w, Finish(d, outcome))
    ensures CallerOk(Apply(w, Finish(d, outcome)), c)
  {
    var u := Apply(w, Finish(d, outcome));
    assert CallerOk(w, c) && CallerOk(w, d);
    assert forall a :: Interrupted(w.gate, a, c) ==> Interrupted(u.gate, a, c);
    if c == d && outcome == Canceled {
      assert Interrupted(u.gate, w.callers[d].attempt, c);
    }
  }

  function Init(): World {
    World(Gate(map[], []), map[], {}, {})
  }

  lemma InitInv()
    ensures Inv(Init())
  {
  }

  ghost predicate Feasible(w: World, events: seq<Event>)
    decreases |events|
  {
    events == [] || (Enabled(w, events[0]) && Feasible(Apply(w, events[0]), events[1..]))
  }

  ghost function After(w: World, events: seq<Event>): World
    requires Feasible(w, events)
    decreases |events|
  {
    if events == [] then w else After(Apply(w, events[0]), events[1..])
  }

  lemma {:induction false} RunInv(w: World, events: seq<Event>)
    requires Inv(w) && Feasible(w, events)
    ensures Inv(After(w, events))
    decreases |events|
  {
    hide Inv, Enabled, Apply;
    if events != [] {
      StepInv(w, events[0]);
      RunInv(Apply(w, events[0]), events[1..]);
    }
  }

  /**
   In every run at most one caller owns the preparation of a key, and nobody inherits a
   cancellation: a caller is told it was canceled only if it was, or its own attempt was.
   */
  lemma SingleOwner(events: seq<Event>, a: nat, b: nat)
    requires Feasible(Init(), events)
    ensures var w := After(Init(), events);
            && (a in w.callers && b in w.callers && Owner(w.callers[a]) && Owner(w.callers[b]) && w.callers[a].key == w.callers[b].key ==>
                  a == b)
            && (a in w.callers && w.callers[a].Returned? && w.callers[a].outcome == Canceled ==>
                  a in w.canceled || exists i :: Interrupted(w.gate, i, a))
  {
    hide Feasible, After;
    InitInv();
    RunInv(Init(), events);
    var w := After(Init(), events);
    assert CallerOk(w, a) && CallerOk(w, b);
  }

  /** What can still become of a caller that waits for an attempt that failed for good. */
  ghost predicate Doomed(w: World, c: nat, key: Key, a: nat, error: string) {
    && a < |w.gate.attempts| && !w.gate.attempts[a].open && w.gate.attempts[a].outcome == Permanent(error)
    && c in w.callers
    && (w.callers[c] == Waiting(key, a) || w.callers[c] == Returned(key, Permanent(error)) || (w.callers[c] == Returned(key, Canceled) && c in w.canceled))
  }

  lemma StepDoomed(w: World, e: Event, c: nat, key: Key, a: nat, error: string)
    requires Inv(w) && Enabled(w, e) && Doomed(w, c, key, a, error)
    ensures Doomed(Apply(w, e), c, key, a, error)
  {
    if e.Finish? {
      assert CallerOk(w, e.c);
    }
  }

  /** A permanent error reaches every waiter of its attempt that is not canceled itself; none of them prepares again. */
  lemma {:induction false} PermanentReachesAll(w: World, events: seq<Event>, c: nat, key: Key, a: nat, error: string)
    requires Inv(w) && Feasible(w, events) && Doomed(w, c, key, a, error)
    ensures Doomed(After(w, events), c, key, a, error)
    decreases |events|
  {
    hide Inv, Enabled, Apply, Doomed;
    if events != [] {
      StepInv(w, events[0]);
      StepDoomed(w, events[0], c, key, a, error);
      PermanentReachesAll(Apply(w, events[0]), events[1..], c, key, a, error);
    }
  }

  /** After a canceled owner, a live waiter that wakes looks again, and the first to claim becomes the owner and builds. */
  lemma NextOwner(w: World, c: nat)
    requires Inv(w) && Enabled(w, Wake(c)) && c !in w.canceled && w.gate.attempts[w.callers[c].attempt].outcome == Canceled
    requires w.callers[c].key !in w.gate.active && w.callers[c].key !in w.prepared
    ensures var events := [Wake(c), Look(c), Claim(c), LookAgain(c)];
            Feasible(w, events) && c in After(w, events).callers && After(w, events).callers[c] == Building(w.callers[c].key, |w.gate.attempts|)
  {
    hide Inv, Feasible, After;
    var w1 := Apply(w, Wake(c));
    var w2 := Apply(w1, Look(c));
    var w3 := Apply(w2, Claim(c));
    var w4 := Apply(w3, LookAgain(c));
    Nothing(w4);
    Then(w3, LookAgain(c), []);
    Then(w2, Claim(c), [LookAgain(c)] + []);
    Then(w1, Look(c), [Claim(c)] + ([LookAgain(c)] + []));
    Then(w, Wake(c), [Look(c)] + ([Claim(c)] + ([LookAgain(c)] + [])));
    assert [Wake(c), Look(c), Claim(c), LookAgain(c)] == [Wake(c)] + ([Look(c)] + ([Claim(c)] + ([LookAgain(c)] + [])));
  }

  lemma Nothing(w: World)
    ensures Feasible(w, []) && After(w, []) == w
  {
  }

  lemma Then(w: World, e: Event, rest: seq<Event>)
    requires Enabled(w, e) && Feasible(Apply(w, e), rest)
    ensures Feasible(w, [e] + rest) && After(w, [e] + rest) == After(Apply(w, e), rest)
  {
    hide Enabled, Apply;
    assert ([e] + rest)[1..] == rest;
  }

  /** How often a run starts to build a key. */
  ghost function Starts(w: World, events: seq<Event>, key: Key): nat
    requires Feasible(w, events)
    decreases |events|
  {
    if events == [] then 0
    else
      (if events[0].LookAgain? && w.callers[events[0].c].key == key then 1 else 0) + Starts(Apply(w, events[0]), events[1..], key)
  }

  /** No caller of the gate starts to build a key that is prepared, in any run in which its artifact is not lost. */
  lemma {:induction false} PreparedOnce(w: World, events: seq<Event>, key: Key)
    requires Feasible(w, events) && key in w.prepared && Lose(key) !in events
    ensures Starts(w, events, key) == 0 && key in After(w, events).prepared
    decreases |events|
  {
    if events != [] {
      assert events[0] in events;
      PreparedOnce(Apply(w, events[0]), events[1..], key);
    }
  }

  predicate Builds(w: World, key: Key, c: nat) {
    c in w.callers && w.callers[c].Building? && w.callers[c].key == key
  }

  predicate Succeeds(w: World, e: Event, key: Key) {
    e.Finish? && e.outcome == Prepared && Builds(w, key, e.c)
  }

  /** How often the gate builds a key in a run. */
  ghost function Built(w: World, events: seq<Event>, key: Key): nat
    requires Feasible(w, events)
    decreases |events|
  {
    if events == [] then 0 else (if Succeeds(w, events[0], key) then 1 else 0) + Built(Apply(w, events[0]), events[1..], key)
  }

  function Lost(events: seq<Event>, key: Key): nat {
    if events == [] then 0 else (if events[0] == Lose(key) then 1 else 0) + Lost(events[1..], key)
  }

  /** A key that can still be built: its artifact is missing, or somebody is building it. */
  ghost predicate Wanting(w: World, key: Key) {
    key !in w.prepared || exists c :: Builds(w, key, c)
  }

  lemma OneBuilder(w: World, key: Key, c: nat, d: nat)
    requires Inv(w) && Builds(w, key, c) && Builds(w, key, d)
    ensures c == d
  {
    assert CallerOk(w, c) && CallerOk(w, d);
  }

  lemma StepWanting(w: World, e: Event, key: Key)
    requires Inv(w) && Enabled(w, e)
    ensures Succeeds(w, e, key) ==> Wanting(w, key) && !Wanting(Apply(w, e), key)
    ensures Wanting(Apply(w, e), key) ==> Wanting(w, key) || e == Lose(key)
  {
    hide Inv;
    var u := Apply(w, e);
    if Succeeds(w, e, key) {
      forall c
        ensures !Builds(u, key, c)
      {
        if Builds(w, key, c) { OneBuilder(w, key, c, e.c); }
      }
    } else if Wanting(u, key) && key in w.prepared && e != Lose(key) {
      StillPrepared(w, e, key);
      var c: nat :| Builds(u, key, c);
      StillBuilding(w, e, key, c);
    }
  }

  lemma StillPrepared(w: World, e: Event, key: Key)
    requires Enabled(w, e) && key in w.prepared && e != Lose(key)
    ensures key in Apply(w, e).prepared
  {
  }

  lemma StillBuilding(w: World, e: Event, key: Key, c: nat)
    requires Enabled(w, e) && key in w.prepared && Builds(Apply(w, e), key, c)
    ensures Builds(w, key, c)
  {
  }

  /** Over any run the gate builds a key at most once more than its artifact is lost, whatever appears meanwhile. */
  lemma {:induction false} BuiltOncePerLoss(w: World, events: seq<Event>, key: Key)
    requires Inv(w) && Feasible(w, events)
    ensures Built(w, events, key) <= Lost(events, key) + if Wanting(w, key) then 1 else 0
    decreases |events|
  {
    hide Inv, Enabled, Apply, Succeeds, Wanting;
    if events != [] {
      StepWanting(w, events[0], key);
      StepInv(w, events[0]);
      BuiltOncePerLoss(Apply(w, events[0]), events[1..], key);
    }
  }

  /** A caller that reports success leaves the artifact there. */
  lemma SuccessPrepares(w: World, c: nat, e: Event)
    requires Inv(w) && Enabled(w, e) && c in w.callers && !w.callers[c].Returned?
    requires c in Apply(w, e).callers && Apply(w, e).callers[c].Returned? && Apply(w, e).callers[c].outcome == Prepared
    ensures Apply(w, e).callers[c].key in Apply(w, e).prepared
  {
    hide Inv;
  }

  /** A permanent error is told only to a caller whose own look failed with it, to the owner whose attempt did, and to those who waited for that attempt. */
  lemma PermanentHasCause(w: World, e: Event, c: nat, error: string)
    requires Inv(w) && Enabled(w, e) && c in w.callers && !w.callers[c].Returned?
    requires c in Apply(w, e).callers && Apply(w, e).callers[c].Returned? && Apply(w, e).callers[c].outcome == Permanent(error)
    ensures || (e == LookFails(c, error) && w.callers[c].Checking?)
            || (e == Finish(c, Permanent(error)) && Owner(w.callers[c]))
            || (e == Wake(c) && w.callers[c].Waiting? && w.callers[c].attempt < |w.gate.attempts|
                && !w.gate.attempts[w.callers[c].attempt].open && w.gate.attempts[w.callers[c].attempt].outcome == Permanent(error))
  {
    hide Inv;
  }

  /** A live caller that looks at an artifact that is there succeeds, and so does one that waited for it. */
  lemma FinderSucceeds(w: World, c: nat)
    requires Inv(w) && c in w.callers && c !in w.canceled && w.callers[c].key in w.prepared
    ensures w.callers[c].Checking? ==> Enabled(w, Look(c)) && Apply(w, Look(c)).callers[c] == Returned(w.callers[c].key, Prepared)
    ensures Enabled(w, Wake(c)) && !w.gate.attempts[w.callers[c].attempt].outcome.Permanent? ==>
              Enabled(Apply(w, Wake(c)), Look(c)) && Apply(Apply(w, Wake(c)), Look(c)).callers[c] == Returned(w.callers[c].key, Prepared)
  {
    hide Inv;
  }

  /**
   What can become of a caller canceled before it owned an attempt: it never owns one and
   is told nothing but that it was canceled.
   */
  ghost predicate Withdrawn(w: World, c: nat) {
    && c in w.canceled && c in w.callers && !Owner(w.callers[c])
    && (w.callers[c].Returned? ==> w.callers[c].outcome == Canceled)
  }

  /** What can become of a caller canceled while it owns an attempt: it never reports success. */
  ghost predicate Overruled(w: World, c: nat) {
    c in w.canceled && c in w.callers && (w.callers[c].Returned? ==> w.callers[c].outcome != Prepared)
  }

  /** From its cancellation on, a caller without an attempt stays withdrawn, and an owner never reports success. */
  lemma {:induction false} CancellationHolds(w: World, events: seq<Event>, c: nat)
    requires Feasible(w, [Cancel(c)] + events) && c in w.callers && !w.callers[c].Returned?
    ensures var u := After(w, [Cancel(c)] + events); if Owner(w.callers[c]) then Overruled(u, c) else Withdrawn(u, c)
  {
    hide Feasible, After;
    var u := Apply(w, Cancel(c));
    Unfold(w, Cancel(c), events);
    RunCanceled(u, events, c);
  }

  lemma Unfold(w: World, e: Event, rest: seq<Event>)
    requires Feasible(w, [e] + rest)
    ensures Enabled(w, e) && Feasible(Apply(w, e), rest) && After(w, [e] + rest) == After(Apply(w, e), rest)
  {
    hide Enabled, Apply;
    assert ([e] + rest)[1..] == rest;
  }

  lemma {:induction false} RunCanceled(w: World, events: seq<Event>, c: nat)
    requires Feasible(w, events)
    ensures Withdrawn(w, c) ==> Withdrawn(After(w, events), c)
    ensures Overruled(w, c) ==> Overruled(After(w, events), c)
    decreases |events|
  {
    hide Enabled, Apply, Withdrawn, Overruled;
    if events != [] {
      StepCanceled(w, events[0], c);
      RunCanceled(Apply(w, events[0]), events[1..], c);
    }
  }

  lemma StepCanceled(w: World, e: Event, c: nat)
    requires Enabled(w, e)
    ensures Withdrawn(w, c) ==> Withdrawn(Apply(w, e), c)
    ensures Overruled(w, c) ==> Overruled(Apply(w, e), c)
  {
  }

  /** A new caller that finds the artifact succeeds; one that claims a free key without looking owns it. */
  lemma NewcomerOutcome(w: World, c: nat, key: Key)
    requires c !in w.callers && c !in w.canceled
    ensures key in w.prepared ==>
              var events := [Arrive(c, key)] + ([Look(c)] + []);
              Feasible(w, events) && c in After(w, events).callers && After(w, events).callers[c] == Returned(key, Prepared)
    ensures key !in w.gate.active ==>
              var events := [Arrive(c, key)] + ([Claim(c)] + []);
              Feasible(w, events) && c in After(w, events).callers && After(w, events).callers[c] == Owning(key, |w.gate.attempts|)
  {
    hide Feasible, After;
    var u := Apply(w, Arrive(c, key));
    Nothing(Apply(u, Look(c)));
    Then(u, Look(c), []);
    Then(w, Arrive(c, key), [Look(c)] + []);
    Nothing(Apply(u, Claim(c)));
    Then(u, Claim(c), []);
    Then(w, Arrive(c, key), [Claim(c)] + []);
  }

  /** An owner can end with any failure, but with success only if it built or found the artifact; then the key is free. */
  lemma OwnerCanFinish(w: World, c: nat, outcome: Outcome)
    requires Inv(w) && c in w.callers && Owner(w.callers[c])
    ensures Enabled(w, Finish(c, outcome)) <==>
              outcome != Prepared || w.callers[c].Building? || w.callers[c].key in w.prepared
    ensures Enabled(w, Finish(c, outcome)) ==>
              var key, u := w.callers[c].key, Apply(w, Finish(c, outcome));
              && key !in u.gate.active && (outcome == Prepared ==> key in u.prepared)
              && (c !in w.canceled ==> u.callers[c] == Returned(key, outcome))
  {
    assert CallerOk(w, c);
  }

  /** A caller whose look fails leaves with that error and opens no attempt. */
  lemma FailedLookEnds(w: World, c: nat, error: string)
    requires Enabled(w, LookFails(c, error))
    ensures var u := Apply(w, LookFails(c, error)); c in u.callers && u.callers[c] == Returned(w.callers[c].key, Permanent(error)) && u.gate == w.gate
  {
  }

  /** A canceled waiter can leave at once, without its owner. */
  lemma CanceledLeaves(w: World, c: nat)
    requires c in w.callers && w.callers[c].Waiting? && c in w.canceled
    ensures Enabled(w, GiveUp(c)) && Apply(w, GiveUp(c)) == w.(callers := w.callers[c := Returned(w.callers[c].key, Canceled)])
  {
  }

  /** A caller that claims a key joins its running attempt, or opens one of its own. */
  lemma ClaimOutcome(w: World, c: nat)
    requires Inv(w) && Enabled(w, Claim(c)) && c !in w.canceled
    ensures var u, key := Apply(w, Claim(c)), w.callers[c].key;
            if exists d :: d in w.callers && Owner(w.callers[d]) && w.callers[d].key == key then
              u.callers[c].Waiting? && u.callers[c].attempt < |u.gate.attempts| && u.gate.attempts[u.callers[c].attempt].open && u.gate == w.gate
            else u.callers[c] == Owning(key, |w.gate.attempts|)
  {
    var key := w.callers[c].key;
    assert ActiveOk(w, key);
    if d :| d in w.callers && Owner(w.callers[d]) && w.callers[d].key == key {
      assert CallerOk(w, d);
    }
  }
}
