/**
 Every interleaving of the admission operations. A `World` is the admission table plus
 the callers that matter to it: release closures not yet called (`tickets`) and
 priority callers blocked in their wait (`waiting`), keyed by waiter identity.
 */
module AdmissionRuns {
  import opened Admission

  datatype Ticket = Ticket(ids: seq<Name>, signer: Name)

  datatype World = World(table: Table, tickets: map<nat, Ticket>, waiting: map<nat, Name>)

  const INIT := World(Table({}, {}, map[], [], {}), map[], map[])

  ghost predicate Fresh(w: World, k: nat) {
    k !in w.tickets && k !in w.waiting && k !in w.table.admitted
  }

  /** What one critical section can do, for some caller `k`. */
  datatype Event =
    | Foreground(k: nat, ids: seq<Name>, signer: Name)
    | Priority(k: nat, signer: Name)
    | Finish(k: nat)
    | Wake(k: nat)
    | Abandon(k: nat)

  ghost predicate Enabled(w: World, e: Event) {
    match e
    case Foreground(k, ids, signer) => Fresh(w, k) && ClaimAllowed(w.table, ids, signer)
    case Priority(k, signer) => Fresh(w, k)
    case Finish(k) => k in w.tickets && |w.table.signers| <= MAX_SIGNERS
    case Wake(k) => k in w.waiting && k in w.table.admitted
    case Abandon(k) => k in w.waiting && |w.table.signers| <= MAX_SIGNERS
  }

  ghost function Apply(w: World, e: Event): World
    requires Enabled(w, e)
  {
    match e
    case Foreground(k, ids, signer) =>
      w.(table := Claim(w.table, ids, signer), tickets := w.tickets[k := Ticket(ids, signer)])
    case Priority(k, signer) =>
      var t := ClaimPriority(w.table, Waiter(k, signer));
      (match PriorityAnswerFor(w.table, signer)
       case Refused => w
       case Granted => w.(table := t, tickets := w.tickets[k := Ticket([], signer)])
       case Queued => w.(table := t, waiting := w.waiting[k := signer]))
    case Finish(k) =>
      w.(table := Release(w.table, w.tickets[k].ids, w.tickets[k].signer), tickets := w.tickets - {k})
    case Wake(k) =>
      w.(waiting := w.waiting - {k}, tickets := w.tickets[k := Ticket([], w.waiting[k])])
    case Abandon(k) =>
      w.(table := Cancel(w.table, Waiter(k, w.waiting[k])), waiting := w.waiting - {k})
  }

  /** The signer caller `k` holds, if any. */
  ghost function Held(w: World, k: nat): Name {
    if k in w.tickets then w.tickets[k].signer
    else if k in w.waiting && k in w.table.admitted then w.waiting[k]
    else NONE
  }

  ghost function HeldSessions(w: World, k: nat): set<Name> {
    if k in w.tickets then ToSet(w.tickets[k].ids) else {}
  }

  ghost predicate SessionsExact(w: World) {
    && (forall k :: HeldSessions(w, k) <= w.table.sessions)
    && (forall j, k :: j != k ==> HeldSessions(w, j) !! HeldSessions(w, k))
    && (forall s :: s in w.table.sessions ==> exists k :: s in HeldSessions(w, k))
  }

  ghost predicate SignersExact(w: World) {
    && (forall k :: Held(w, k) == NONE || Held(w, k) in w.table.signers)
    && (forall j, k :: j != k && Held(w, j) == Held(w, k) ==> Held(w, j) == NONE)
    && (forall s :: s in w.table.signers ==> exists k :: Held(w, k) == s)
  }

  /** Every blocked caller is queued or already admitted, and every queued waiter has its caller. */
  ghost predicate WaitersExact(w: World) {
    && (forall k :: k in w.waiting ==> k !in w.tickets && w.waiting[k] != NONE)
    && (forall k :: k in w.waiting && k !in w.table.admitted ==> Waiter(k, w.waiting[k]) in w.table.queue)
    && (forall i :: 0 <= i < |w.table.queue| ==>
          w.table.queue[i].id in w.waiting && w.waiting[w.table.queue[i].id] == w.table.queue[i].signer)
  }

  ghost predicate Core(w: World) {
    Linked(w.table) && Bounded(w.table) && SessionsExact(w) && SignersExact(w) && WaitersExact(w)
  }

  /**
   Each session and each signer has exactly one holder or none and then is free, all
   bounds hold, the queue and the map are in bijection and no queued waiter is admissible.
   */
  ghost predicate Inv(w: World) {
    Core(w) && Settled(w.table)
  }

  lemma AdmitCore(w: World)
    requires Core(w)
    ensures Inv(w.(table := Admit(w.table)))
  {
    hide Admit, Linked;
    var u := w.(table := Admit(w.table));
    AdmitSettles(w.table);
    LinkedDistinct(w.table);
    AdmitWaiters(w, u);
    AdmitSigners(w, u);
    assert forall k :: HeldSessions(u, k) == HeldSessions(w, k);
  }

  lemma AdmitWaiters(w: World, u: World)
    requires WaitersExact(w) && Admits(w.table, u.table) && u == w.(table := u.table)
    ensures WaitersExact(u)
  {
    assert forall i :: 0 <= i < |u.table.queue| ==> u.table.queue[i] in u.table.queue;
  }

  lemma AdmitSigners(w: World, u: World)
    requires SignersExact(w) && WaitersExact(w) && Distinct(w.table.queue) && Bounded(u.table)
    requires Admits(w.table, u.table) && u == w.(table := u.table)
    ensures SignersExact(u)
  {
    var t, r := w.table, u.table;
    forall k | Held(u, k) != Held(w, k)
      ensures k in w.waiting && Waiter(k, w.waiting[k]) in t.queue && Held(u, k) in r.signers - t.signers && Held(w, k) == NONE
    {
    }
    forall s | s in r.signers
      ensures exists k :: Held(u, k) == s
    {
      if s in w.table.signers {
        var k: nat :| Held(w, k) == s;
        assert Held(u, k) == s;
      } else {
        assert s in r.signers - t.signers;
        var x :| x in t.queue && x.signer == s;
        assert Held(u, x.id) == s;
      }
    }
    forall j, k | j != k && Held(u, j) == Held(u, k)
      ensures Held(u, j) == NONE
    {
      if Held(u, j) != Held(w, j) && Held(u, k) != Held(w, k) {
        SameSigner(t.queue, Waiter(j, w.waiting[j]), Waiter(k, w.waiting[k]));
      }
    }
  }

  lemma SameSigner(q: seq<Waiter>, a: Waiter, b: Waiter)
    requires Distinct(q) && a in q && b in q && a.signer == b.signer
    ensures a == b
  {
    var i :| 0 <= i < |q| && q[i] == a;
    var j :| 0 <= j < |q| && q[j] == b;
  }

  /** Removing caller `k` and freeing what it held leaves the others' holdings exact. */
  lemma LeaveCore(w: World, u: World, k: nat)
    requires Inv(w) && (k in w.tickets || (k in w.waiting && k in w.table.admitted))
    requires u.tickets == w.tickets - {k} && u.waiting == w.waiting - {k}
    requires u.table == w.table.(sessions := w.table.sessions - HeldSessions(w, k), signers := w.table.signers - {Held(w, k)})
    ensures Core(u)
  {
    hide Linked, ToSet, SignersExact, WaitersExact;
    LinkedFrame(w.table, u.table);
    LinkedDistinct(w.table);
    Shrink(w.table.signers, Held(w, k));
    assert |u.table.sessions| <= |w.table.sessions| by {
      assert w.table.sessions == u.table.sessions + HeldSessions(w, k);
    }
    LeaveOthers(w, u, k);
    LeaveSigners(w, u, k);
    LeaveSessions(w, u, k);
    LeaveWaiters(w, u, k);
  }

  lemma LeaveOthers(w: World, u: World, k: nat)
    requires u.tickets == w.tickets - {k} && u.waiting == w.waiting - {k} && u.table.admitted == w.table.admitted
    ensures forall j :: j != k ==> Held(u, j) == Held(w, j) && HeldSessions(u, j) == HeldSessions(w, j)
    ensures Held(u, k) == NONE && HeldSessions(u, k) == {}
  {
  }

  lemma LeaveWaiters(w: World, u: World, k: nat)
    requires WaitersExact(w) && (k in w.tickets || k in w.table.admitted)
    requires forall x :: x in w.table.queue ==> x.id !in w.table.admitted
    requires u.tickets == w.tickets - {k} && u.waiting == w.waiting - {k}
    requires u.table.admitted == w.table.admitted && u.table.queue == w.table.queue
    ensures WaitersExact(u)
  {
    assert forall i :: 0 <= i < |u.table.queue| ==> u.table.queue[i] in u.table.queue;
  }

  lemma LeaveSessions(w: World, u: World, k: nat)
    requires SessionsExact(w) && u.table.sessions == w.table.sessions - HeldSessions(w, k)
    requires forall j :: j != k ==> HeldSessions(u, j) == HeldSessions(w, j)
    requires HeldSessions(u, k) == {}
    ensures SessionsExact(u)
  {
    hide HeldSessions;
    forall s | s in u.table.sessions
      ensures exists j :: s in HeldSessions(u, j)
    {
      var j: nat :| s in HeldSessions(w, j);
      assert s in HeldSessions(u, j);
    }
  }

  lemma LeaveSigners(w: World, u: World, k: nat)
    requires SignersExact(w) && u.table.signers == w.table.signers - {Held(w, k)}
    requires forall j :: j != k ==> Held(u, j) == Held(w, j)
    requires Held(u, k) == NONE && NONE !in w.table.signers
    ensures SignersExact(u)
  {
    forall s | s in u.table.signers
      ensures exists j :: Held(u, j) == s
    {
      var j: nat :| Held(w, j) == s;
      assert Held(u, j) == s;
    }
  }

  lemma LinkedFrame(t: Table, u: Table)
    requires Linked(t) && u.queue == t.queue && u.priority == t.priority && u.admitted == t.admitted
    ensures Linked(u)
  {
  }

  /** A new ticket for free sessions and a free signer keeps holdings exact. */
  lemma JoinCore(w: World, k: nat, ids: seq<Name>, signer: Name)
    requires Inv(w) && Fresh(w, k)
    requires |w.table.sessions| + |ids| <= MAX_SESSIONS
    requires signer != NONE ==> signer !in w.table.signers && |w.table.signers| < MAX_SIGNERS
    requires ToSet(ids) !! w.table.sessions
    ensures Inv(w.(table := Claim(w.table, ids, signer), tickets := w.tickets[k := Ticket(ids, signer)]))
  {
    hide Linked, ToSet, SessionsExact, SignersExact, WaitersExact, Held, HeldSessions;
    var u := w.(table := Claim(w.table, ids, signer), tickets := w.tickets[k := Ticket(ids, signer)]);
    LinkedFrame(w.table, u.table);
    ToSetSize(ids);
    JoinOthers(w, u, k);
    JoinSigners(w, u, k);
    JoinSessions(w, u, k);
    JoinWaiters(w, u, k);
  }

  lemma JoinOthers(w: World, u: World, k: nat)
    requires Fresh(w, k) && k in u.tickets && u.tickets == w.tickets[k := u.tickets[k]]
    requires u.waiting == w.waiting && u.table.admitted == w.table.admitted
    ensures forall j :: j != k ==> Held(u, j) == Held(w, j) && HeldSessions(u, j) == HeldSessions(w, j)
    ensures Held(w, k) == NONE && HeldSessions(w, k) == {}
    ensures Held(u, k) == u.tickets[k].signer && HeldSessions(u, k) == ToSet(u.tickets[k].ids)
  {
  }

  lemma JoinWaiters(w: World, u: World, k: nat)
    requires WaitersExact(w) && Fresh(w, k) && k in u.tickets && u.tickets == w.tickets[k := u.tickets[k]]
    requires u.waiting == w.waiting && u.table.admitted == w.table.admitted && u.table.queue == w.table.queue
    ensures WaitersExact(u)
  {
  }

  lemma {:induction false} ToSetSize(ids: seq<Name>)
    ensures |ToSet(ids)| <= |ids|
  {
    if ids != [] {
      var n := |ids| - 1;
      ToSetSize(ids[..n]);
      ToSetAppend(ids, n);
      assert ids[..n + 1] == ids;
    }
  }

  lemma JoinSigners(w: World, u: World, k: nat)
    requires SignersExact(w) && Held(w, k) == NONE
    requires forall j :: j != k ==> Held(u, j) == Held(w, j)
    requires Held(u, k) == NONE || Held(u, k) !in w.table.signers
    requires u.table.signers == if Held(u, k) == NONE then w.table.signers else w.table.signers + {Held(u, k)}
    requires NONE !in w.table.signers
    ensures SignersExact(u)
  {
    hide Held;
    forall s | s in u.table.signers
      ensures exists j :: Held(u, j) == s
    {
      if s in w.table.signers {
        var j: nat :| Held(w, j) == s;
        assert Held(u, j) == s;
      } else {
        assert Held(u, k) == s;
      }
    }
  }

  lemma JoinSessions(w: World, u: World, k: nat)
    requires SessionsExact(w) && HeldSessions(w, k) == {}
    requires forall j :: j != k ==> HeldSessions(u, j) == HeldSessions(w, j)
    requires HeldSessions(u, k) !! w.table.sessions
    requires u.table.sessions == w.table.sessions + HeldSessions(u, k)
    ensures SessionsExact(u)
  {
    hide HeldSessions;
    forall s | s in u.table.sessions
      ensures exists j :: s in HeldSessions(u, j)
    {
      if s in w.table.sessions {
        var j: nat :| s in HeldSessions(w, j);
        assert s in HeldSessions(u, j);
      } else {
        assert s in HeldSessions(u, k);
      }
    }
  }

  lemma EnqueueInv(w: World, k: nat, signer: Name)
    requires Inv(w) && Fresh(w, k) && PriorityAnswerFor(w.table, signer) == Queued
    ensures Inv(Apply(w, Priority(k, signer)))
  {
    hide Linked, SessionsExact, SignersExact, WaitersExact;
    var u := Apply(w, Priority(k, signer));
    EnqueueLinked(w, Waiter(k, signer));
    EnqueueWaiters(w, u, Waiter(k, signer));
    assert forall j :: Held(u, j) == Held(w, j) && HeldSessions(u, j) == HeldSessions(w, j);
    SameHoldings(w, u);
    assert Settled(u.table) by { EnqueueSettled(w.table, u.table); }
  }

  lemma EnqueueSettled(t: Table, r: Table)
    requires Settled(t) && |r.queue| == |t.queue| + 1 && r.queue[..|t.queue|] == t.queue && r.signers == t.signers
    requires |t.signers| <= MAX_SIGNERS
    requires r.queue[|t.queue|].signer in t.signers || |t.signers| >= MAX_SIGNERS
    ensures Settled(r)
  {
    assert forall i :: 0 <= i < |t.queue| ==> r.queue[i] == t.queue[i];
  }

  lemma EnqueueWaiters(w: World, u: World, x: Waiter)
    requires WaitersExact(w) && Fresh(w, x.id) && x.signer != NONE
    requires u.tickets == w.tickets && u.waiting == w.waiting[x.id := x.signer]
    requires u.table.admitted == w.table.admitted && u.table.queue == w.table.queue + [x]
    ensures WaitersExact(u)
  {
    assert forall i :: 0 <= i < |w.table.queue| ==> u.table.queue[i] == w.table.queue[i];
    assert u.table.queue[|w.table.queue|] == x;
  }

  lemma SameHoldings(w: World, u: World)
    requires SignersExact(w) && SessionsExact(w)
    requires forall j :: Held(u, j) == Held(w, j) && HeldSessions(u, j) == HeldSessions(w, j)
    requires u.table.signers == w.table.signers && u.table.sessions == w.table.sessions
    ensures SignersExact(u) && SessionsExact(u)
  {
    hide Held, HeldSessions;
    forall s | s in u.table.signers
      ensures exists j :: Held(u, j) == s
    {
      var j: nat :| Held(w, j) == s;
      assert Held(u, j) == s;
    }
    forall s | s in u.table.sessions
      ensures exists j :: s in HeldSessions(u, j)
    {
      var j: nat :| s in HeldSessions(w, j);
      assert s in HeldSessions(u, j);
    }
  }

  lemma EnqueueLinked(w: World, x: Waiter)
    requires Linked(w.table) && WaitersExact(w) && x.id !in w.waiting && x.id !in w.table.admitted
    requires x.signer !in w.table.priority
    ensures Linked(w.table.(priority := w.table.priority[x.signer := x], queue := w.table.queue + [x]))
  {
    var t := w.table;
    var q := t.queue + [x];
    assert forall i :: 0 <= i < |t.queue| ==> q[i] == t.queue[i];
    forall i | 0 <= i < |t.queue|
      ensures q[i].signer != x.signer && q[i].id != x.id
    {
      assert t.queue[i].signer in t.priority && t.queue[i].id in w.waiting;
    }
    assert x in q;
  }

  /** The canceled arm of a waiter that is still queued. */
  lemma WithdrawCore(w: World, k: nat)
    requires Inv(w) && k in w.waiting && k !in w.table.admitted
    ensures var x := Waiter(k, w.waiting[k]);
            && x.signer in w.table.priority && w.table.priority[x.signer] == x
            && Core(w.(table := w.table.(priority := w.table.priority - {x.signer}, queue := Eligible(w.table.queue, {x.signer})),
                       waiting := w.waiting - {k}))
  {
    var t, x := w.table, Waiter(k, w.waiting[k]);
    hide Eligible, Linked, Settled, SessionsExact, SignersExact, WaitersExact, Held, HeldSessions;
    Apart(w, k);
    WithdrawLinked(w, x);
    var r := t.(priority := t.priority - {x.signer}, queue := Eligible(t.queue, {x.signer}));
    var u := w.(table := r, waiting := w.waiting - {k});
    ShrinkMap(t.priority, {x.signer});
    WithdrawHoldings(w, u, k);
    SameHoldings(w, u);
    WithdrawWaiters(w, u, x);
  }

  lemma WithdrawHoldings(w: World, u: World, k: nat)
    requires k in w.waiting && k !in w.table.admitted && k !in w.tickets
    requires u.tickets == w.tickets && u.waiting == w.waiting - {k} && u.table.admitted == w.table.admitted
    ensures forall j :: Held(u, j) == Held(w, j) && HeldSessions(u, j) == HeldSessions(w, j)
  {
  }

  lemma WithdrawLinked(w: World, x: Waiter)
    requires Linked(w.table) && WaitersExact(w) && x.id in w.waiting && w.waiting[x.id] == x.signer && x.id !in w.table.admitted
    ensures x in w.table.queue && x.signer in w.table.priority && w.table.priority[x.signer] == x
    ensures Linked(w.table.(priority := w.table.priority - {x.signer}, queue := Eligible(w.table.queue, {x.signer})))
  {
    hide Eligible;
    var i :| 0 <= i < |w.table.queue| && w.table.queue[i] == x;
    DropAt(w.table, i);
  }

  lemma SignerIsId(q: seq<Waiter>, a: Waiter, b: Waiter)
    requires Distinct(q) && a in q && b in q
    ensures a.signer == b.signer <==> a.id == b.id
  {
    var i :| 0 <= i < |q| && q[i] == a;
    var j :| 0 <= j < |q| && q[j] == b;
    assert i == j || i < j || j < i;
  }

  lemma WithdrawWaiters(w: World, u: World, x: Waiter)
    requires WaitersExact(w) && Linked(w.table) && x in w.table.queue
    requires u.tickets == w.tickets && u.waiting == w.waiting - {x.id} && u.table.admitted == w.table.admitted
    requires u.table.queue == Eligible(w.table.queue, {x.signer})
    ensures WaitersExact(u)
  {
    hide Linked, Eligible, Distinct;
    LinkedDistinct(w.table);
    EligibleMembers(w.table.queue, {x.signer});
    forall y | y in w.table.queue
      ensures y.signer == x.signer <==> y.id == x.id
    {
      SignerIsId(w.table.queue, x, y);
    }
    assert forall i :: 0 <= i < |u.table.queue| ==> u.table.queue[i] in u.table.queue;
  }

  /** Every step of every caller keeps the invariant. */
  lemma StepInv(w: World, e: Event)
    requires Inv(w) && Enabled(w, e)
    ensures Inv(Apply(w, e))
  {
    hide Linked, Eligible, Admit, SessionsExact, SignersExact, WaitersExact;
    match e
    case Foreground(k, ids, signer) =>
      JoinCore(w, k, ids, signer);
    case Priority(k, signer) =>
      match PriorityAnswerFor(w.table, signer) {
        case Refused =>
        case Granted =>
          JoinCore(w, k, [], signer);
          assert w.table.sessions + ToSet([]) == w.table.sessions;
        case Queued =>
          EnqueueInv(w, k, signer);
      }
    case Finish(k) =>
      FinishInv(w, k);
    case Wake(k) =>
      WakeInv(w, k);
    case Abandon(k) =>
      if k in w.table.admitted {
        AbandonAdmitted(w, k);
      } else {
        AbandonQueued(w, k);
      }
  }

  lemma WakeInv(w: World, k: nat)
    requires Inv(w) && k in w.waiting && k in w.table.admitted
    ensures Inv(Apply(w, Wake(k)))
  {
    hide Linked, SessionsExact, SignersExact, WaitersExact, Settled, Held, HeldSessions;
    var u := Apply(w, Wake(k));
    Apart(w, k);
    WakeHoldings(w, k);
    SameHoldings(w, u);
    LinkedDistinct(w.table);
    WakeWaiters(w, k);
  }

  lemma WakeHoldings(w: World, k: nat)
    requires k in w.waiting && k in w.table.admitted && k !in w.tickets
    ensures forall j :: Held(Apply(w, Wake(k)), j) == Held(w, j) && HeldSessions(Apply(w, Wake(k)), j) == HeldSessions(w, j)
  {
    assert HeldSessions(Apply(w, Wake(k)), k) == {};
  }

  lemma WakeWaiters(w: World, k: nat)
    requires WaitersExact(w) && k in w.waiting && k in w.table.admitted && forall x :: x in w.table.queue ==> x.id !in w.table.admitted
    ensures WaitersExact(Apply(w, Wake(k)))
  {
    assert forall i :: 0 <= i < |w.table.queue| ==> w.table.queue[i] in w.table.queue;
  }

  lemma AbandonQueued(w: World, k: nat)
    requires Inv(w) && k in w.waiting && k !in w.table.admitted
    ensures Inv(Apply(w, Abandon(k)))
  {
    hide Linked, Eligible, Admit, SessionsExact, SignersExact, WaitersExact;
    WithdrawCore(w, k);
    var x := Waiter(k, w.waiting[k]);
    AdmitCore(w.(table := w.table.(priority := w.table.priority - {x.signer}, queue := Eligible(w.table.queue, {x.signer})),
                 waiting := w.waiting - {k}));
  }

  lemma Apart(w: World, k: nat)
    requires WaitersExact(w)
    ensures k in w.waiting ==> k !in w.tickets
  {
  }

  lemma HeldAdmitted(w: World, k: nat)
    requires k in w.waiting && k in w.table.admitted && k !in w.tickets
    ensures Held(w, k) == w.waiting[k] && HeldSessions(w, k) == {}
  {
  }

  lemma HeldIsTaken(w: World, k: nat)
    requires SignersExact(w) && Held(w, k) != NONE
    ensures Held(w, k) in w.table.signers
  {
  }

  /** What is left when a ticket is released, before the next ones are let in. */
  ghost function Released(w: World, k: nat): World
    requires k in w.tickets
  {
    World(
      w.table.(sessions := w.table.sessions - ToSet(w.tickets[k].ids), signers := w.table.signers - {w.tickets[k].signer}),
      w.tickets - {k}, w.waiting)
  }

  lemma FinishShape(w: World, k: nat)
    requires k in w.tickets && |w.table.signers| <= MAX_SIGNERS
    ensures |Released(w, k).table.signers| <= MAX_SIGNERS
    ensures Apply(w, Finish(k)) == Released(w, k).(table := Admit(Released(w, k).table))
  {
    hide Admit, ToSet;
    Shrink(w.table.signers, w.tickets[k].signer);
  }

  lemma ReleasedCore(w: World, k: nat)
    requires Inv(w) && k in w.tickets
    ensures Core(Released(w, k))
  {
    hide Linked, SessionsExact, SignersExact, WaitersExact, Settled, ToSet;
    Apart(w, k);
    assert w.waiting - {k} == w.waiting;
    LeaveCore(w, Released(w, k), k);
  }

  lemma FinishInv(w: World, k: nat)
    requires Inv(w) && k in w.tickets
    ensures Inv(Apply(w, Finish(k)))
  {
    hide Core, Settled, Apply, Released;
    BoundedSigners(w);
    FinishShape(w, k);
    ReleasedCore(w, k);
    AdmitCore(Released(w, k));
  }

  /** What is left when an admitted waiter gives up, before the next ones are let in. */
  ghost function Given(w: World, k: nat): World
    requires k in w.waiting
  {
    World(w.table.(signers := w.table.signers - {w.waiting[k]}), w.tickets, w.waiting - {k})
  }

  lemma AbandonShape(w: World, k: nat)
    requires k in w.waiting && k in w.table.admitted && |w.table.signers| <= MAX_SIGNERS
    ensures |Given(w, k).table.signers| <= MAX_SIGNERS
    ensures Apply(w, Abandon(k)) == Given(w, k).(table := Admit(Given(w, k).table))
  {
    hide Admit, ToSet;
    Shrink(w.table.signers, w.waiting[k]);
    ToSetEmpty([]);
    assert w.table.sessions - {} == w.table.sessions;
  }

  lemma GivenHoldings(w: World, k: nat)
    requires k in w.waiting && k in w.table.admitted && k !in w.tickets
    ensures var u := Given(w, k);
            && u.tickets == w.tickets - {k}
            && u.table == w.table.(sessions := w.table.sessions - HeldSessions(w, k), signers := w.table.signers - {Held(w, k)})
  {
    HeldAdmitted(w, k);
    assert w.tickets - {k} == w.tickets;
    assert w.table.sessions - {} == w.table.sessions;
  }

  lemma AbandonAdmitted(w: World, k: nat)
    requires Inv(w) && k in w.waiting && k in w.table.admitted
    ensures Inv(Apply(w, Abandon(k)))
  {
    hide Linked, Admit, SessionsExact, SignersExact, WaitersExact, Settled, Held, HeldSessions, Apply, Cancel;
    Apart(w, k);
    AbandonShape(w, k);
    GivenHoldings(w, k);
    LeaveCore(w, Given(w, k), k);
    AdmitCore(Given(w, k));
  }

  ghost predicate IsRun(run: seq<World>, events: seq<Event>) {
    && |run| == |events| + 1
    && run[0] == INIT
    && forall i :: 0 <= i < |events| ==> Enabled(run[i], events[i]) && run[i + 1] == Apply(run[i], events[i])
  }

  /** The invariant holds in every state of every run, whatever the callers do and whenever they cancel. */
  lemma {:induction false} RunInv(run: seq<World>, events: seq<Event>, n: nat)
    requires IsRun(run, events) && n < |run|
    ensures Inv(run[n])
  {
    hide Linked, SessionsExact, SignersExact, WaitersExact;
    if n == 0 {
      InitInv();
    } else {
      RunInv(run, events, n - 1);
      StepInv(run[n - 1], events[n - 1]);
    }
  }

  lemma InitInv()
    ensures Inv(INIT)
  {
  }

  /**
   A foreground claim that gets a signer passes nobody: no waiter is queued for that
   signer, and every queued waiter is waiting for a signer that is busy.
   */
  lemma ForegroundPassesNobody(w: World, k: nat, ids: seq<Name>, signer: Name, i: nat)
    requires Inv(w) && Enabled(w, Foreground(k, ids, signer)) && signer != NONE && i < |w.table.queue|
    ensures w.table.queue[i].signer != signer && w.table.queue[i].signer in w.table.signers
    ensures w.table.queue[i] in Apply(w, Foreground(k, ids, signer)).table.queue
  {
  }

  /**
   Bounded waiting: when a signer is released and a waiter whose own signer is now
   free still has to wait, an older waiter got the slot.
   */
  lemma ReleaseAdvances(w: World, k: nat, i: nat)
    requires Inv(w) && k in w.tickets && w.tickets[k].signer != NONE && i < |w.table.queue|
    requires var r := Apply(w, Finish(k)).table; w.table.queue[i] in r.queue && w.table.queue[i].signer !in r.signers
    ensures exists j :: 0 <= j < i && w.table.queue[j] !in Apply(w, Finish(k)).table.queue
  {
    hide Linked, Admit, SessionsExact, SignersExact, WaitersExact, Settled, ToSet, Apply;
    FinishShape(w, k);
    ReleasedCore(w, k);
    HeldIsTaken(w, k);
    Shrink(w.table.signers, w.tickets[k].signer);
    SlotGoesToOldest(Released(w, k).table, i);
  }

  lemma Grew(a: set<Name>, b: set<Name>)
    requires a <= b && |a| < |b|
    ensures b - a != {}
  {
    assert b == a + (b - a);
  }

  lemma SlotGoesToOldest(t: Table, i: nat)
    requires Linked(t) && Bounded(t) && |t.signers| < MAX_SIGNERS && i < |t.queue|
    requires t.queue[i] in Admit(t).queue && t.queue[i].signer !in Admit(t).signers
    ensures exists j :: 0 <= j < i && t.queue[j] !in Admit(t).queue
  {
    hide Admit, Linked, Bounded;
    AdmitSettles(t);
    var j := SomebodyAdmitted(t, Admit(t), t.queue[i]);
    if j > i {
      NotOvertaken(t, i, j);
    }
    assert j < i && t.queue[j] !in Admit(t).queue;
  }

  /** If a slot was free and a waiter with a free signer stays, somebody else was let in. */
  lemma SomebodyAdmitted(t: Table, r: Table, x: Waiter) returns (j: nat)
    requires Admits(t, r) && Settled(r) && |t.signers| < MAX_SIGNERS && x in r.queue && x.signer !in r.signers
    ensures j < |t.queue| && t.queue[j] !in r.queue
  {
    var n :| 0 <= n < |r.queue| && r.queue[n] == x;
    assert |r.signers| == MAX_SIGNERS;
    Grew(t.signers, r.signers);
    var s :| s in r.signers - t.signers;
    var y :| y in t.queue && y.signer == s;
    j :| 0 <= j < |t.queue| && t.queue[j] == y;
  }

  // Overtaking.

  /** Caller `k` gets a signer in the step from `w` to `u`. */
  ghost predicate Gains(w: World, u: World, k: nat) {
    Held(w, k) == NONE && Held(u, k) != NONE
  }

  /** The waiter at `i` still has a claim before `k`: its own signer is busy, or `k` was queued earlier. */
  ghost predicate Excused(t: Table, u: Table, i: nat, k: nat)
    requires i < |t.queue|
  {
    t.queue[i].signer in u.signers || exists j :: 0 <= j < i && t.queue[j].id == k
  }

  lemma AdmitExcused(w: World, u: World, i: nat, k: nat)
    requires Core(w) && u == w.(table := Admit(w.table)) && Gains(w, u, k)
    requires i < |w.table.queue| && w.table.queue[i] in u.table.queue
    ensures Excused(w.table, u.table, i, k)
  {
    hide Admit, Linked, SessionsExact, SignersExact, WaitersExact;
    var t, r := w.table, u.table;
    AdmitSettles(t);
    assert k in r.admitted - t.admitted;
    var x :| x in t.queue && x.id == k;
    var j :| 0 <= j < |t.queue| && t.queue[j] == x;
    if j > i {
      NotOvertaken(t, i, j);
    }
    assert t.queue[j].id == k && j != i;
  }

  /** Leaving and then admitting, as every release does. */
  lemma LeaveExcused(w: World, v: World, left: nat, i: nat, k: nat)
    requires Inv(w) && (left in w.tickets || (left in w.waiting && left in w.table.admitted))
    requires v.tickets == w.tickets - {left} && v.waiting == w.waiting - {left}
    requires v.table == w.table.(sessions := w.table.sessions - HeldSessions(w, left), signers := w.table.signers - {Held(w, left)})
    requires |v.table.signers| <= MAX_SIGNERS
    requires var u := v.(table := Admit(v.table));
             Gains(w, u, k) && i < |w.table.queue| && w.table.queue[i] in u.table.queue
    ensures Excused(w.table, Admit(v.table), i, k)
  {
    hide Linked, Admit, SessionsExact, SignersExact, WaitersExact, Settled, ToSet, Bounded, Core;
    var u := v.(table := Admit(v.table));
    LeaveCore(w, v, left);
    LeaveOthers(w, v, left);
    AdmitExcused(v, u, i, k);
  }

  lemma FinishExcused(w: World, left: nat, i: nat, k: nat)
    requires Inv(w) && left in w.tickets && i < |w.table.queue|
    requires var u := Apply(w, Finish(left)); Gains(w, u, k) && w.table.queue[i] in u.table.queue
    ensures Excused(w.table, Apply(w, Finish(left)).table, i, k)
  {
    hide Linked, Admit, SessionsExact, SignersExact, WaitersExact, Settled, ToSet, Apply;
    FinishShape(w, left);
    Apart(w, left);
    assert w.waiting - {left} == w.waiting;
    LeaveExcused(w, Released(w, left), left, i, k);
  }

  lemma AbandonExcused(w: World, left: nat, i: nat, k: nat)
    requires Inv(w) && left in w.waiting && left in w.table.admitted && i < |w.table.queue|
    requires var u := Apply(w, Abandon(left)); Gains(w, u, k) && w.table.queue[i] in u.table.queue
    ensures Excused(w.table, Apply(w, Abandon(left)).table, i, k)
  {
    hide Linked, Admit, SessionsExact, SignersExact, WaitersExact, Settled, Held, HeldSessions, Apply, Cancel;
    Apart(w, left);
    AbandonShape(w, left);
    GivenHoldings(w, left);
    LeaveExcused(w, Given(w, left), left, i, k);
  }

  /** A waiter that gives up lets nobody in: the others are as little admissible as before. */
  lemma WithdrawnGainsNothing(w: World, left: nat, k: nat)
    requires Inv(w) && left in w.waiting && left !in w.table.admitted
    ensures !Gains(w, Apply(w, Abandon(left)), k)
  {
    hide Linked, Eligible, Admit, SessionsExact, SignersExact, WaitersExact, Bounded, Held;
    WithdrawCore(w, left);
    Apart(w, left);
    var t, x := w.table, Waiter(left, w.waiting[left]);
    var r := t.(priority := t.priority - {x.signer}, queue := Eligible(t.queue, {x.signer}));
    EligibleMembers(t.queue, {x.signer});
    assert forall i :: 0 <= i < |r.queue| ==> r.queue[i] in r.queue;
    BoundedSigners(w);
    AdmitSettled(r);
    WithdrawHoldings(w, w.(table := r, waiting := w.waiting - {left}), left);
  }

  lemma BoundedSigners(w: World)
    requires Core(w)
    ensures |w.table.signers| <= MAX_SIGNERS
  {
  }

  /**
   Whatever the step, whoever gets a signer in it passes no queued waiter whose own signer
   is free: a waiter that stays queued is excused, a fresh caller served at once included.
   */
  lemma NobodyIsOvertaken(w: World, e: Event, i: nat, k: nat)
    requires Inv(w) && Enabled(w, e) && Gains(w, Apply(w, e), k)
    requires i < |w.table.queue| && w.table.queue[i] in Apply(w, e).table.queue
    ensures Excused(w.table, Apply(w, e).table, i, k)
  {
    match e
    case Foreground(_, ids, signer) => JoinExcused(w, e, i, k);
    case Priority(_, signer) => JoinExcused(w, e, i, k);
    case Finish(left) => FinishExcused(w, left, i, k);
    case Wake(j) => WakeGainsNothing(w, j, k);
    case Abandon(left) =>
      if left in w.table.admitted { AbandonExcused(w, left, i, k); } else { WithdrawnGainsNothing(w, left, k); }
  }

  lemma WakeGainsNothing(w: World, j: nat, k: nat)
    requires Inv(w) && Enabled(w, Wake(j))
    ensures !Gains(w, Apply(w, Wake(j)), k)
  {
    hide Linked, SessionsExact, SignersExact, WaitersExact;
    Apart(w, j);
  }

  /** A caller that gets a signer at once finds a free slot, so every waiter's signer is busy. */
  lemma JoinExcused(w: World, e: Event, i: nat, k: nat)
    requires Inv(w) && Enabled(w, e) && (e.Foreground? || e.Priority?) && Gains(w, Apply(w, e), k) && i < |w.table.queue|
    ensures Excused(w.table, Apply(w, e).table, i, k)
  {
    hide Linked, SessionsExact, SignersExact, WaitersExact, ToSet;
  }

  /** No step of any run lets anybody overtake a waiter whose signer is free. */
  lemma NoRunOvertakes(run: seq<World>, events: seq<Event>, n: nat, i: nat, k: nat)
    requires IsRun(run, events) && n < |events| && Gains(run[n], run[n + 1], k)
    requires i < |run[n].table.queue| && run[n].table.queue[i] in run[n + 1].table.queue
    ensures Excused(run[n].table, run[n + 1].table, i, k)
  {
    hide Inv, Enabled, Apply, Gains, Excused;
    RunInv(run, events, n);
    NobodyIsOvertaken(run[n], events[n], i, k);
  }

  // What a claim gets.

  ghost predicate Busy(w: World, signer: Name) {
    exists j :: Held(w, j) == signer
  }

  ghost predicate Awaited(w: World, signer: Name) {
    exists i :: 0 <= i < |w.table.queue| && w.table.queue[i].signer == signer
  }

  /** Busy signers are those in the table, and awaited ones those with a queued waiter. */
  lemma TableIsExact(w: World, signer: Name)
    requires Inv(w) && signer != NONE
    ensures Busy(w, signer) <==> signer in w.table.signers
    ensures Awaited(w, signer) <==> signer in w.table.priority
    ensures |w.table.queue| == |w.table.priority|
  {
    hide SessionsExact, WaitersExact, Held;
    QueueSize(w.table);
  }

  /**
   What a priority claim gets: the signer if nobody holds it and a slot is free, otherwise
   the last place in the queue if fewer than four wait. It is refused only without a signer,
   for a signer that is awaited already, or when four wait.
   */
  lemma PriorityOutcome(w: World, k: nat, signer: Name)
    requires Inv(w) && Fresh(w, k)
    ensures var u, free := Apply(w, Priority(k, signer)), !Busy(w, signer) && |w.table.signers| < 4;
            if signer == NONE || Awaited(w, signer) then u == w
            else if free then Held(u, k) == signer && u.table.queue == w.table.queue
            else if |w.table.queue| < 4 then
              u.table.queue == w.table.queue + [Waiter(k, signer)] && k in u.waiting && u.waiting[k] == signer && Held(u, k) == NONE
            else u == w
  {
    hide SessionsExact, SignersExact, WaitersExact, Linked, Settled, Busy, Awaited;
    if signer != NONE { TableIsExact(w, signer); }
  }

  /** A foreground claim is granted exactly when nobody holds its sessions or its signer, nobody waits for the signer, and there is room. */
  lemma ForegroundOutcome(w: World, k: nat, ids: seq<Name>, signer: Name)
    requires Inv(w) && Fresh(w, k)
    ensures Enabled(w, Foreground(k, ids, signer)) <==>
              && |w.table.sessions| + |ids| <= 256
              && (forall i, j :: 0 <= i < |ids| ==> ids[i] !in HeldSessions(w, j))
              && (signer != NONE ==> !Busy(w, signer) && !Awaited(w, signer) && |w.table.signers| < 4)
    ensures Enabled(w, Foreground(k, ids, signer)) ==>
              var u := Apply(w, Foreground(k, ids, signer));
              Held(u, k) == signer && HeldSessions(u, k) == (set i | 0 <= i < |ids| :: ids[i])
  {
    hide SignersExact, WaitersExact, Linked, Settled, Busy, Awaited;
    if signer != NONE { TableIsExact(w, signer); }
    forall i | 0 <= i < |ids|
      ensures ids[i] in w.table.sessions <==> exists j :: ids[i] in HeldSessions(w, j)
    {
      if ids[i] in w.table.sessions {
        var j: nat :| ids[i] in HeldSessions(w, j);
      }
    }
  }

  /** A waiter that a release lets in holds its signer. */
  lemma LetInHolds(w: World, u: World, x: Waiter)
    requires Core(w) && u == w.(table := Admit(w.table)) && x in w.table.queue && x !in u.table.queue
    ensures Held(u, x.id) == x.signer
  {
    hide Admit, Linked, SessionsExact, SignersExact;
    AdmitSettles(w.table);
    var i :| 0 <= i < |w.table.queue| && w.table.queue[i] == x;
  }

  /** In a world whose signers leave `i`'s own free, an admission pass serves `i` or an older one. */
  lemma ServesOldest(w: World, u: World, i: nat)
    requires Core(w) && u == w.(table := Admit(w.table)) && i < |w.table.queue|
    requires w.table.queue[i].signer !in w.table.signers && |w.table.signers| < MAX_SIGNERS
    ensures exists j :: 0 <= j <= i && Held(u, w.table.queue[j].id) == w.table.queue[j].signer
  {
    hide Admit, Linked, SessionsExact, SignersExact, WaitersExact, Held;
    var t := w.table;
    if t.queue[i] !in u.table.queue {
      LetInHolds(w, u, t.queue[i]);
    } else {
      OwnSignerOnly(t, i);
      SlotGoesToOldest(t, i);
      var j :| 0 <= j < i && t.queue[j] !in Admit(t).queue;
      LetInHolds(w, u, t.queue[j]);
    }
  }

  /** Nobody but the waiter itself takes its signer in an admission pass. */
  lemma OwnSignerOnly(t: Table, i: nat)
    requires Linked(t) && Bounded(t) && i < |t.queue| && t.queue[i].signer !in t.signers && t.queue[i] in Admit(t).queue
    ensures t.queue[i].signer !in Admit(t).signers
  {
    hide Admit, Linked;
    AdmitSettles(t);
  }

  /**
   When the holder of an awaited signer is done, whether it finished or was canceled, its
   waiter holds the signer, or a waiter queued before it got the slot.
   */
  lemma HolderHandsOver(w: World, e: Event, k: nat, i: nat)
    requires Inv(w) && Enabled(w, e) && i < |w.table.queue| && Held(w, k) == w.table.queue[i].signer
    requires e == Finish(k) || e == Abandon(k)
    ensures var u := Apply(w, e); exists j :: 0 <= j <= i && Held(u, w.table.queue[j].id) == w.table.queue[j].signer
  {
    hide Linked, Admit, SessionsExact, SignersExact, WaitersExact, Settled, ToSet, Apply, Held;
    QueuedHasSigner(w, i);
    HeldIsTaken(w, k);
    Freed(w.table.signers, Held(w, k));
    if e.Finish? {
      FinishShape(w, k);
      ReleasedCore(w, k);
      TicketHeld(w, k);
      ServesOldest(Released(w, k), Apply(w, e), i);
    } else {
      AbandonHeld(w, k);
      AbandonShape(w, k);
      Apart(w, k);
      GivenHoldings(w, k);
      LeaveCore(w, Given(w, k), k);
      ServesOldest(Given(w, k), Apply(w, e), i);
    }
  }

  lemma QueuedHasSigner(w: World, i: nat)
    requires Inv(w) && i < |w.table.queue|
    ensures w.table.queue[i].signer != NONE
  {
    hide SessionsExact, SignersExact, Linked, Settled;
  }

  lemma TicketHeld(w: World, k: nat)
    requires k in w.tickets
    ensures Held(w, k) == w.tickets[k].signer
  {
  }

  lemma AbandonHeld(w: World, k: nat)
    requires Inv(w) && k in w.waiting && Held(w, k) != NONE
    ensures k in w.table.admitted && Held(w, k) == w.waiting[k]
  {
    hide SessionsExact, SignersExact, Linked, Settled;
    Apart(w, k);
  }

  lemma Freed(a: set<Name>, s: Name)
    requires s in a
    ensures |a - {s}| == |a| - 1
  {
    assert a == (a - {s}) + {s};
  }
}
