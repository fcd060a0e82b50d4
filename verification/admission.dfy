/**
 Signer admission for retrieval submissions.

 `Table` is the value of the admission state; its functions say what each critical
 section must leave behind. `RetrievalOperations` is the mutable structure the gateway
 keeps under one mutex, proved to compute exactly those functions.
 */
module Admission {

  /** A session ID or an account address; the empty name is the "no signer" argument. */
  datatype Name = Name(text: string)

  /** A priority waiter; `id` is its object identity. */
  datatype Waiter = Waiter(id: nat, signer: Name)

  /** `admitted` holds the waiters whose flag is set and whose `ready` channel is closed. */
  datatype Table = Table(
    sessions: set<Name>, signers: set<Name>, priority: map<Name, Waiter>, queue: seq<Waiter>, admitted: set<nat>)

  const NONE := Name("")
  const MAX_SIGNERS := 4
  const MAX_WAITERS := 4
  const MAX_SESSIONS := 256

  function ToSet(ids: seq<Name>): set<Name> {
    set i | 0 <= i < |ids| :: ids[i]
  }

  function SignersOf(q: seq<Waiter>): set<Name> {
    set i | 0 <= i < |q| :: q[i].signer
  }

  function IdsOf(q: seq<Waiter>): set<nat> {
    set i | 0 <= i < |q| :: q[i].id
  }

  /** The waiters of `q` whose signer is outside `busy`, in order. */
  function Eligible(q: seq<Waiter>, busy: set<Name>): (r: seq<Waiter>) {
    if q == [] then []
    else if q[0].signer in busy then Eligible(q[1..], busy)
    else [q[0]] + Eligible(q[1..], busy)
  }

  function Min(a: nat, b: nat): nat {
    if a < b then a else b
  }

  /** Whom the next admission pass lets in: the oldest eligible waiters, one per free slot. */
  function Admitted(signers: set<Name>, queue: seq<Waiter>): (r: seq<Waiter>)
    requires |signers| <= MAX_SIGNERS
  {
    var e := Eligible(queue, signers);
    e[..Min(|e|, MAX_SIGNERS - |signers|)]
  }

  function Admit(t: Table): (r: Table)
    requires |t.signers| <= MAX_SIGNERS
  {
    var a := Admitted(t.signers, t.queue);
    var s := SignersOf(a);
    Table(t.sessions, t.signers + s, t.priority - s, Eligible(t.queue, s), t.admitted + IdsOf(a))
  }

  ghost predicate Distinct(q: seq<Waiter>) {
    forall i, j :: 0 <= i < j < |q| ==> q[i].signer != q[j].signer && q[i].id != q[j].id
  }

  /** The waiter queue and the priority map are in bijection; queued waiters are not admitted. */
  ghost predicate Linked(t: Table) {
    && Distinct(t.queue)
    && (forall i :: 0 <= i < |t.queue| ==>
          t.queue[i].signer in t.priority && t.priority[t.queue[i].signer] == t.queue[i] && t.queue[i].id !in t.admitted)
    && (forall n :: n in t.priority ==> t.priority[n] in t.queue && t.priority[n].signer == n)
  }

  ghost predicate Bounded(t: Table) {
    && |t.sessions| <= MAX_SESSIONS
    && |t.signers| <= MAX_SIGNERS
    && |t.priority| <= MAX_WAITERS
    && NONE !in t.signers
    && NONE !in t.priority
  }

  /** No queued waiter could be let in now: its signer is busy or every slot is taken. */
  ghost predicate Settled(t: Table) {
    forall i :: 0 <= i < |t.queue| ==> t.queue[i].signer in t.signers || |t.signers| == MAX_SIGNERS
  }

  ghost predicate Valid(t: Table) {
    Linked(t) && Bounded(t) && Settled(t)
  }

  predicate ClaimAllowed(t: Table, ids: seq<Name>, signer: Name) {
    && |t.sessions| + |ids| <= MAX_SESSIONS
    && (signer != NONE ==> signer !in t.signers && signer !in t.priority && |t.signers| < MAX_SIGNERS)
    && forall i :: 0 <= i < |ids| ==> ids[i] !in t.sessions
  }

  function Claim(t: Table, ids: seq<Name>, signer: Name): Table {
    t.(sessions := t.sessions + ToSet(ids), signers := if signer == NONE then t.signers else t.signers + {signer})
  }

  function Release(t: Table, ids: seq<Name>, signer: Name): Table
    requires |t.signers| <= MAX_SIGNERS
  {
    Shrink(t.signers, signer);
    Admit(t.(sessions := t.sessions - ToSet(ids), signers := t.signers - {signer}))
  }

  datatype PriorityAnswer = Refused | Granted | Queued

  function PriorityAnswerFor(t: Table, signer: Name): PriorityAnswer {
    if signer == NONE || signer in t.priority then Refused
    else if signer !in t.signers && |t.signers| < MAX_SIGNERS then Granted
    else if |t.priority| >= MAX_WAITERS then Refused
    else Queued
  }

  function ClaimPriority(t: Table, w: Waiter): Table {
    match PriorityAnswerFor(t, w.signer)
    case Refused => t
    case Granted => t.(signers := t.signers + {w.signer})
    case Queued => t.(priority := t.priority[w.signer := w], queue := t.queue + [w])
  }

  /** The canceled arm of the wait, which races with admission. */
  function Cancel(t: Table, w: Waiter): Table
    requires |t.signers| <= MAX_SIGNERS
  {
    if w.id in t.admitted then Release(t, [], w.signer)
    else if w.signer in t.priority && t.priority[w.signer] == w then
      Admit(t.(priority := t.priority - {w.signer}, queue := Eligible(t.queue, {w.signer})))
    else t
  }

  /** The bijection makes the bound on the map a bound on the queue. */
  lemma QueueSize(t: Table)
    requires Linked(t)
    ensures SignersOf(t.queue) == t.priority.Keys && |t.queue| == |t.priority|
  {
    SizeOfDistinct(t.queue);
    assert forall n :: n in t.priority ==> t.priority[n].signer in SignersOf(t.queue);
    assert SignersOf(t.queue) == t.priority.Keys;
    assert |t.priority| == |t.priority.Keys|;
  }

  lemma Shrink(a: set<Name>, s: Name)
    ensures |a - {s}| <= |a|
  {
    assert a == (a - {s}) + (a * {s});
  }

  lemma ShrinkMap(m: map<Name, Waiter>, s: set<Name>)
    ensures |m - s| <= |m|
  {
    var r := m - s;
    assert m.Keys == r.Keys + (m.Keys * s);
    assert |m| == |m.Keys| && |r| == |r.Keys|;
  }

  lemma {:induction false} EligibleMembers(q: seq<Waiter>, busy: set<Name>)
    ensures forall w :: w in Eligible(q, busy) <==> w in q && w.signer !in busy
    ensures Distinct(q) ==> Distinct(Eligible(q, busy))
    ensures |Eligible(q, busy)| <= |q|
  {
    if q != [] {
      EligibleMembers(q[1..], busy);
      assert q == [q[0]] + q[1..];
      assert Distinct(q) ==> forall w :: w in q[1..] ==> w.signer != q[0].signer;
    }
  }

  lemma {:induction false} SizeOfDistinct(q: seq<Waiter>)
    requires Distinct(q)
    ensures |SignersOf(q)| == |q|
  {
    if q != [] {
      SizeOfDistinct(q[1..]);
      SignersCons(q[0], q[1..]);
      assert q == [q[0]] + q[1..];
    }
  }

  lemma SignersCons(w: Waiter, q: seq<Waiter>)
    ensures SignersOf([w] + q) == {w.signer} + SignersOf(q)
    ensures IdsOf([w] + q) == {w.id} + IdsOf(q)
  {
    var r := [w] + q;
    assert forall i :: 0 <= i < |q| ==> q[i] == r[i + 1];
    assert r[0] == w;
  }

  lemma {:induction false} EligibleConcat(a: seq<Waiter>, b: seq<Waiter>, busy: set<Name>)
    ensures Eligible(a + b, busy) == Eligible(a, busy) + Eligible(b, busy)
  {
    if a == [] {
      assert a + b == b;
    } else {
      EligibleConcat(a[1..], b, busy);
      assert (a + b)[0] == a[0] && (a + b)[1..] == a[1..] + b;
      assert [a[0]] + (Eligible(a[1..], busy) + Eligible(b, busy)) == [a[0]] + Eligible(a[1..], busy) + Eligible(b, busy);
    }
  }

  lemma {:induction false} EligibleCongruent(q: seq<Waiter>, x: set<Name>, y: set<Name>)
    requires forall w :: w in q ==> (w.signer in x <==> w.signer in y)
    ensures Eligible(q, x) == Eligible(q, y)
  {
    if q != [] {
      EligibleCongruent(q[1..], x, y);
    }
  }

  lemma {:induction false} EligibleAll(q: seq<Waiter>)
    ensures Eligible(q, {}) == q
  {
    if q != [] {
      EligibleAll(q[1..]);
    }
  }

  lemma {:induction false} AllBusy(q: seq<Waiter>, busy: set<Name>)
    requires forall w :: w in q ==> w.signer in busy
    ensures Eligible(q, busy) == []
  {
    if q != [] {
      AllBusy(q[1..], busy);
    }
  }

  lemma EligibleSplit(pre: seq<Waiter>, w: Waiter, post: seq<Waiter>, busy: set<Name>)
    ensures Eligible(pre + [w] + post, busy)
         == Eligible(pre, busy) + (if w.signer in busy then [] else [w]) + Eligible(post, busy)
  {
    EligibleConcat(pre + [w], post, busy);
    EligibleConcat(pre, [w], busy);
    assert Eligible([w], busy) == if w.signer in busy then [] else [w];
  }

  /** One turn of the admission loop changes neither who ends up admitted nor the final table. */
  lemma AdmitOne(t: Table, pre: seq<Waiter>, w: Waiter, post: seq<Waiter>)
    requires t.queue == pre + [w] + post && Linked(t)
    requires |t.signers| < MAX_SIGNERS && w.signer !in t.signers
    requires forall x :: x in pre ==> x.signer in t.signers
    ensures var u := GrantOne(t, pre, w, post); |u.signers| <= MAX_SIGNERS && Admit(u) == Admit(t)
  {
    hide Eligible, SignersOf, IdsOf, Admitted;
    var u := GrantOne(t, pre, w, post);
    Apart(pre, w, post);
    AdmittedOne(t.signers, pre, w, post);
    var a := Admitted(u.signers, u.queue);
    var s := SignersOf(a);
    SignersCons(w, a);
    QueueOne(pre, w, post, s);
    assert t.signers + ({w.signer} + s) == u.signers + s;
    assert t.admitted + ({w.id} + IdsOf(a)) == u.admitted + IdsOf(a);
    assert t.priority - ({w.signer} + s) == u.priority - s;
  }

  function GrantOne(t: Table, pre: seq<Waiter>, w: Waiter, post: seq<Waiter>): Table {
    Table(t.sessions, t.signers + {w.signer}, t.priority - {w.signer}, pre + post, t.admitted + {w.id})
  }

  lemma Apart(pre: seq<Waiter>, w: Waiter, post: seq<Waiter>)
    requires Distinct(pre + [w] + post)
    ensures Distinct(pre + post)
    ensures forall x :: x in pre + post ==> x.signer != w.signer && x.id != w.id
  {
    var q, r := pre + [w] + post, pre + post;
    assert q[|pre|] == w;
    forall i | 0 <= i < |r|
      ensures r[i].signer != w.signer && r[i].id != w.id
    {
      assert r[i] == q[if i < |pre| then i else i + 1];
    }
    forall i, j | 0 <= i < j < |r|
      ensures r[i].signer != r[j].signer && r[i].id != r[j].id
    {
      assert r[i] == q[if i < |pre| then i else i + 1] && r[j] == q[if j < |pre| then j else j + 1];
    }
  }

  lemma QueueOne(pre: seq<Waiter>, w: Waiter, post: seq<Waiter>, a: set<Name>)
    requires forall x :: x in pre + post ==> x.signer != w.signer
    ensures Eligible(pre + [w] + post, {w.signer} + a) == Eligible(pre + post, a)
  {
    EligibleSplit(pre, w, post, {w.signer} + a);
    EligibleConcat(pre, post, a);
    assert forall x :: x in pre || x in post ==> x in pre + post;
    EligibleCongruent(pre, {w.signer} + a, a);
    EligibleCongruent(post, {w.signer} + a, a);
  }

  lemma AdmittedOne(signers: set<Name>, pre: seq<Waiter>, w: Waiter, post: seq<Waiter>)
    requires |signers| < MAX_SIGNERS && w.signer !in signers
    requires forall x :: x in pre + post ==> x.signer != w.signer
    requires forall x :: x in pre ==> x.signer in signers
    ensures |signers + {w.signer}| <= MAX_SIGNERS
    ensures Admitted(signers, pre + [w] + post) == [w] + Admitted(signers + {w.signer}, pre + post)
  {
    AllBusy(pre, signers);
    AllBusy(pre, signers + {w.signer});
    EligibleSplit(pre, w, post, signers);
    EligibleConcat(pre, post, signers + {w.signer});
    assert forall x :: x in post ==> x in pre + post;
    EligibleCongruent(post, signers, signers + {w.signer});
    assert Eligible(pre + [w] + post, signers) == [w] + Eligible(pre + post, signers + {w.signer});
  }

  /** With nobody admissible an admission pass does nothing. */
  lemma AdmitSettled(t: Table)
    requires |t.signers| <= MAX_SIGNERS && Settled(t)
    ensures Admit(t) == t
  {
    if |t.signers| < MAX_SIGNERS {
      AllBusy(t.queue, t.signers);
    }
    assert Admitted(t.signers, t.queue) == [];
    EligibleAll(t.queue);
  }

  lemma LinkedAfterGrant(t: Table, pre: seq<Waiter>, w: Waiter, post: seq<Waiter>)
    requires t.queue == pre + [w] + post && Linked(t)
    ensures Linked(GrantOne(t, pre, w, post))
  {
    Apart(pre, w, post);
    var u := GrantOne(t, pre, w, post);
    forall i | 0 <= i < |u.queue|
      ensures u.queue[i].signer in u.priority && u.priority[u.queue[i].signer] == u.queue[i] && u.queue[i].id !in u.admitted
    {
      assert u.queue[i] == t.queue[if i < |pre| then i else i + 1];
    }
    forall n | n in u.priority
      ensures u.priority[n] in u.queue && u.priority[n].signer == n
    {
      assert t.priority[n] in pre + [w] + post;
    }
  }

  lemma GrantAt(t: Table, i: nat)
    requires Linked(t) && i < |t.queue| && |t.signers| < MAX_SIGNERS && t.queue[i].signer !in t.signers
    requires forall k :: 0 <= k < i ==> t.queue[k].signer in t.signers
    ensures var u := GrantOne(t, t.queue[..i], t.queue[i], t.queue[i + 1..]);
            Linked(u) && |u.signers| <= MAX_SIGNERS && Admit(u) == Admit(t)
  {
    assert t.queue == t.queue[..i] + [t.queue[i]] + t.queue[i + 1..];
    AdmitOne(t, t.queue[..i], t.queue[i], t.queue[i + 1..]);
    LinkedAfterGrant(t, t.queue[..i], t.queue[i], t.queue[i + 1..]);
  }

  /** `r` differs from `t` only by letting in queued waiters, each with its own signer. */
  ghost predicate Admits(t: Table, r: Table) {
    && r.sessions == t.sessions && t.signers <= r.signers && t.admitted <= r.admitted
    && (forall w :: w in r.queue ==> w in t.queue)
    && (forall w :: w in t.queue ==> (w in r.queue <==> w.id !in r.admitted))
    && (forall w :: w in t.queue ==> (w in r.queue <==> w.signer !in r.signers - t.signers))
    && (forall s :: s in r.signers - t.signers ==> exists w :: w in t.queue && w.signer == s)
    && (forall k :: k in r.admitted - t.admitted ==> exists w :: w in t.queue && w.id == k)
  }

  /**
   An admission pass keeps every bound and the bijection, leaves nobody admissible, and
   lets in exactly the waiters that leave the queue.
   */
  lemma AdmitSettles(t: Table)
    requires Linked(t) && Bounded(t)
    ensures Valid(Admit(t)) && Admits(t, Admit(t))
  {
    hide Admit, Linked;
    QueueSize(t);
    LinkedDistinct(t);
    AdmitBounds(t);
    AdmitLinked(t);
    AdmitAdmits(t);
  }

  lemma AdmitBounds(t: Table)
    requires Distinct(t.queue) && Bounded(t) && SignersOf(t.queue) == t.priority.Keys
    ensures Bounded(Admit(t)) && Settled(Admit(t))
  {
    hide Eligible, Admitted, SignersOf, IdsOf;
    var s, r := SignersOf(Admitted(t.signers, t.queue)), Admit(t);
    AdmittedFresh(t.signers, t.queue);
    assert |r.signers| == |t.signers| + |s|;
    ShrinkMap(t.priority, s);
    EligibleMembers(t.queue, s);
    assert forall i :: 0 <= i < |r.queue| ==> r.queue[i] in r.queue;
  }

  lemma AdmitAdmits(t: Table)
    requires Distinct(t.queue) && |t.signers| <= MAX_SIGNERS
    requires forall w :: w in t.queue ==> w.id !in t.admitted
    ensures Admits(t, Admit(t))
  {
    hide Eligible, Admitted, SignersOf, IdsOf;
    AdmittedFresh(t.signers, t.queue);
    SignerIffId(t.signers, t.queue);
    AdmittedQueued(t.signers, t.queue);
    EligibleMembers(t.queue, SignersOf(Admitted(t.signers, t.queue)));
  }

  lemma AdmittedQueued(signers: set<Name>, queue: seq<Waiter>)
    requires |signers| <= MAX_SIGNERS
    ensures var a := Admitted(signers, queue);
            && (forall s :: s in SignersOf(a) ==> exists w :: w in queue && w.signer == s)
            && (forall k :: k in IdsOf(a) ==> exists w :: w in queue && w.id == k)
  {
    var e, a := Eligible(queue, signers), Admitted(signers, queue);
    EligibleMembers(queue, signers);
    assert forall k :: 0 <= k < |a| ==> a[k] == e[k] && e[k] in e;
    assert forall k :: 0 <= k < |a| ==> a[k] in queue;
  }

  lemma LinkedDistinct(t: Table)
    requires Linked(t)
    ensures Distinct(t.queue)
    ensures forall w :: w in t.queue ==> w.id !in t.admitted
  {
  }

  lemma AdmitLinked(t: Table)
    requires Linked(t) && |t.signers| <= MAX_SIGNERS
    ensures Linked(Admit(t))
  {
    hide Eligible, Admitted, SignersOf, IdsOf;
    var a, r := Admitted(t.signers, t.queue), Admit(t);
    AdmittedFresh(t.signers, t.queue);
    SignerIffId(t.signers, t.queue);
    EligibleMembers(t.queue, SignersOf(a));
    forall i | 0 <= i < |r.queue|
      ensures r.queue[i].signer in r.priority && r.priority[r.queue[i].signer] == r.queue[i] && r.queue[i].id !in r.admitted
    {
      assert r.queue[i] in r.queue;
      var k :| 0 <= k < |t.queue| && t.queue[k] == r.queue[i];
    }
  }

  lemma AdmittedFresh(signers: set<Name>, queue: seq<Waiter>)
    requires |signers| <= MAX_SIGNERS && Distinct(queue)
    ensures var a := Admitted(signers, queue);
            && SignersOf(a) !! signers
            && |SignersOf(a)| == |a| <= MAX_SIGNERS - |signers|
            && SignersOf(a) <= SignersOf(queue)
            && (forall w :: w in queue ==> w.signer in signers || w.signer in SignersOf(a) || |signers| + |a| == MAX_SIGNERS)
  {
    var e, a := Eligible(queue, signers), Admitted(signers, queue);
    EligibleMembers(queue, signers);
    SizeOfDistinct(a);
    assert forall k :: 0 <= k < |a| ==> a[k] == e[k] && e[k] in e;
    assert forall k :: 0 <= k < |a| ==> a[k] in queue;
    forall w | w in queue && w.signer !in signers && |signers| + |a| < MAX_SIGNERS
      ensures w.signer in SignersOf(a)
    {
      assert a == e && w in e;
    }
  }

  lemma SignerIffId(signers: set<Name>, queue: seq<Waiter>)
    requires |signers| <= MAX_SIGNERS && Distinct(queue)
    ensures var a := Admitted(signers, queue);
            forall w :: w in queue ==> (w.signer in SignersOf(a) <==> w.id in IdsOf(a))
  {
    var e, a := Eligible(queue, signers), Admitted(signers, queue);
    EligibleMembers(queue, signers);
    assert forall k :: 0 <= k < |a| ==> a[k] == e[k] && e[k] in e;
    assert forall k :: 0 <= k < |a| ==> a[k] in queue;
    forall w | w in queue
      ensures w.signer in SignersOf(a) <==> w.id in IdsOf(a)
    {
      var i :| 0 <= i < |queue| && queue[i] == w;
      forall k | 0 <= k < |a|
        ensures a[k].signer == w.signer <==> a[k].id == w.id
      {
        var j :| 0 <= j < |queue| && queue[j] == a[k];
        assert i == j || i < j || j < i;
      }
    }
  }

  /** A waiter is overtaken by a younger one only while its own signer is busy. */
  lemma NotOvertaken(t: Table, i: nat, j: nat)
    requires Linked(t) && Bounded(t) && i < j < |t.queue|
    requires t.queue[i] in Admit(t).queue && t.queue[j] !in Admit(t).queue
    ensures t.queue[i].signer in t.signers
  {
    AdmitSettles(t);
    if t.queue[i].signer !in t.signers {
      OldestFirst(t.signers, t.queue, i, j);
      assert false;
    }
  }

  lemma OldestFirst(signers: set<Name>, q: seq<Waiter>, i: nat, j: nat)
    requires |signers| <= MAX_SIGNERS && Distinct(q) && i < j < |q|
    requires q[i].signer !in signers && q[j].signer in SignersOf(Admitted(signers, q))
    ensures q[i].signer in SignersOf(Admitted(signers, q))
  {
    var a, pre, post := Admitted(signers, q), q[..i + 1], q[i + 1..];
    assert q == pre + post && q[i] == pre[i];
    EligibleConcat(pre, post, signers);
    var ep := Eligible(pre, signers);
    EligibleMembers(pre, signers);
    assert q[i] in ep;
    var m :| 0 <= m < |a| && a[m].signer == q[j].signer;
    var n :| 0 <= n < |ep| && ep[n] == q[i];
    if m < |ep| {
      InPrefix(q, i, j, ep[m]);
      assert false;
    }
    assert a[n] == q[i];
  }

  lemma InPrefix(q: seq<Waiter>, i: nat, j: nat, w: Waiter)
    requires Distinct(q) && i < j < |q| && w in q[..i + 1]
    ensures w.signer != q[j].signer
  {
    var k :| 0 <= k <= i && q[k] == w;
  }

  class RetrievalOperations {
    var sessions: set<Name>
    var signers: set<Name>
    var priority: map<Name, Waiter>
    var priorityWaiters: seq<Waiter>
    var admitted: set<nat>

    ghost function Value(): Table
      reads this
    {
      Table(sessions, signers, priority, priorityWaiters, admitted)
    }

    constructor ()
      ensures Value() == Table({}, {}, map[], [], {})
    {
      sessions, signers, priority, priorityWaiters, admitted := {}, {}, map[], [], {};
    }

    method AdmitPriorityLocked()
      requires Linked(Value()) && |signers| <= MAX_SIGNERS
      modifies this
      ensures Value() == Admit(old(Value()))
    {
      hide Admit;
      var i := 0;
      ghost var goal := Admit(Value());
      while i < |priorityWaiters| && |signers| < MAX_SIGNERS
        invariant i <= |priorityWaiters| && |signers| <= MAX_SIGNERS && Linked(Value())
        invariant Admit(Value()) == goal
        invariant forall k :: 0 <= k < i ==> priorityWaiters[k].signer in signers
        decreases |priorityWaiters| - i
      {
        var waiter := priorityWaiters[i];
        if waiter.signer in signers {
          i := i + 1;
          continue;
        }
        GrantAt(Value(), i);
        priorityWaiters := priorityWaiters[..i] + priorityWaiters[i + 1..];
        priority := priority - {waiter.signer};
        signers := signers + {waiter.signer};
        admitted := admitted + {waiter.id};
      }
      AdmitSettled(Value());
    }

    method ReleaseOperations(ids: seq<Name>, signer: Name)
      requires Linked(Value()) && |signers| <= MAX_SIGNERS
      modifies this
      ensures Value() == Release(old(Value()), ids, signer)
    {
      hide Admit;
      ghost var before := Value();
      for i := 0 to |ids|
        invariant Value() == before.(sessions := before.sessions - ToSet(ids[..i]))
      {
        assert ToSet(ids[..i + 1]) == ToSet(ids[..i]) + {ids[i]} by {
          ToSetAppend(ids, i);
        }
        sessions := sessions - {ids[i]};
      }
      assert ids[..|ids|] == ids;
      Shrink(signers, signer);
      signers := signers - {signer};
      AdmitPriorityLocked();
    }

    method ClaimOperations(ids: seq<Name>, signer: Name) returns (ok: bool)
      modifies this
      ensures ok <==> ClaimAllowed(old(Value()), ids, signer)
      ensures Value() == if ok then Claim(old(Value()), ids, signer) else old(Value())
    {
      hide ToSet;
      ghost var before := Value();
      if |sessions| + |ids| > MAX_SESSIONS
         || (signer != NONE && (signer in signers || signer in priority || |signers| >= MAX_SIGNERS)) {
        return false;
      }
      for i := 0 to |ids|
        invariant forall k :: 0 <= k < i ==> ids[k] !in sessions
      {
        if ids[i] in sessions {
          return false;
        }
      }
      ToSetEmpty(ids[..0]);
      for i := 0 to |ids|
        invariant Value() == before.(sessions := before.sessions + ToSet(ids[..i]))
      {
        ToSetAppend(ids, i);
        sessions := sessions + {ids[i]};
      }
      assert ids[..|ids|] == ids;
      if signer != NONE {
        signers := signers + {signer};
      }
      return true;
    }

    /** The part of the priority claim that runs before the wait; `w` is the waiter it would allocate. */
    method ClaimPrioritySigner(w: Waiter) returns (answer: PriorityAnswer)
      modifies this
      ensures answer == PriorityAnswerFor(old(Value()), w.signer)
      ensures Value() == ClaimPriority(old(Value()), w)
    {
      if w.signer == NONE || w.signer in priority {
        return Refused;
      }
      if w.signer !in signers && |signers| < MAX_SIGNERS {
        signers := signers + {w.signer};
        return Granted;
      }
      if |priority| >= MAX_WAITERS {
        return Refused;
      }
      priority := priority[w.signer := w];
      priorityWaiters := priorityWaiters + [w];
      return Queued;
    }

    method CancelWait(w: Waiter)
      requires Linked(Value()) && |signers| <= MAX_SIGNERS
      modifies this
      ensures Value() == Cancel(old(Value()), w)
    {
      hide Admit;
      if w.id in admitted {
        Shrink(signers, w.signer);
        assert sessions - ToSet([]) == sessions;
        signers := signers - {w.signer};
        AdmitPriorityLocked();
      } else if w.signer in priority && priority[w.signer] == w {
        priority := priority - {w.signer};
        var i := 0;
        while priorityWaiters[i] != w
          invariant i < |priorityWaiters| && w in priorityWaiters[i..]
          decreases |priorityWaiters| - i
        {
          i := i + 1;
        }
        DropAt(old(Value()), i);
        priorityWaiters := priorityWaiters[..i] + priorityWaiters[i + 1..];
        AdmitPriorityLocked();
      }
    }
  }

  lemma ToSetEmpty(ids: seq<Name>)
    requires |ids| == 0
    ensures ToSet(ids) == {}
  {
  }

  lemma ToSetAppend(ids: seq<Name>, i: nat)
    requires i < |ids|
    ensures ToSet(ids[..i + 1]) == ToSet(ids[..i]) + {ids[i]}
  {
    assert forall k :: 0 <= k < i ==> ids[..i + 1][k] == ids[..i][k];
    assert ids[..i + 1][i] == ids[i];
  }

  lemma DropAt(t: Table, i: nat)
    requires Linked(t) && i < |t.queue|
    ensures Eligible(t.queue, {t.queue[i].signer}) == t.queue[..i] + t.queue[i + 1..]
    ensures Linked(t.(priority := t.priority - {t.queue[i].signer}, queue := t.queue[..i] + t.queue[i + 1..]))
  {
    hide Eligible;
    var pre, w, post := t.queue[..i], t.queue[i], t.queue[i + 1..];
    assert t.queue == pre + [w] + post;
    Apart(pre, w, post);
    QueueOne(pre, w, post, {});
    assert {w.signer} + {} == {w.signer};
    EligibleAll(pre + post);
    LinkedAfterGrant(t, pre, w, post);
  }
}
