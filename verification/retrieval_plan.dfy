/**
 The compact plan of a v3 retrieval session: blobs are dealt to eight slots by their
 number modulo eight. The plan counts them per slot, the session pays per blob, and the
 data chunks deliver them slot by slot and MDU by MDU.
 */
module RetrievalPlan {
  import opened Wrappers
  import opened Basics

  const SLOTS := 8
  const BLOBS_PER_MDU := 64

  // Counting blobs by residue.

  function Delta(first: nat, slot: nat): nat {
    (slot + SLOTS - first % SLOTS) % SLOTS
  }

  /** The closed form the planner uses. */
  function ResidueCount(first: nat, last: nat, slot: nat): nat
    requires first <= last && slot < SLOTS
  {
    if Delta(first, slot) > last - first then 0 else 1 + (last - first - Delta(first, slot)) / SLOTS
  }

  /** The blobs of a range that belong to a slot. */
  function Residues(first: nat, last: nat, slot: nat): set<nat> {
    set t | first <= t <= last && t % SLOTS == slot
  }

  /** The closed form counts exactly the blobs of the slot. */
  lemma {:induction false} ResidueCountIsExact(first: nat, last: nat, slot: nat)
    requires first <= last && slot < SLOTS
    ensures ResidueCount(first, last, slot) == |Residues(first, last, slot)|
    decreases last
  {
    hide ResidueCount, Residues;
    if first == last {
      OneBlob(first, slot);
    } else {
      ResidueCountIsExact(first, last - 1, slot);
      OneMore(first, last, slot);
    }
    ResiduesGrow(first, last, slot);
  }

  lemma ResiduesGrow(first: nat, last: nat, slot: nat)
    requires first <= last
    ensures Residues(first, last, slot) ==
              (if first < last then Residues(first, last - 1, slot) else {}) + (if last % SLOTS == slot then {last} else {})
    ensures first < last ==> last !in Residues(first, last - 1, slot)
  {
    if first < last {
      assert Residues(first, last, slot) == Residues(first, last - 1, slot) + if last % SLOTS == slot then {last} else {};
    }
  }

  lemma OneBlob(first: nat, slot: nat)
    requires slot < SLOTS
    ensures ResidueCount(first, first, slot) == if first % SLOTS == slot then 1 else 0
  {
  }

  lemma OneMore(first: nat, last: nat, slot: nat)
    requires first < last && slot < SLOTS
    ensures ResidueCount(first, last, slot) == ResidueCount(first, last - 1, slot) + if last % SLOTS == slot then 1 else 0
  {
    var d := Delta(first, slot);
    DeltaIs(first, slot);
    hide Delta;
    Offset(first, d);
    SameResidue(first + d, last - first - d);
    if last - first > d {
      NextQuotient(last - first - d);
    } else if last - first < d {
      Offset(first, last - first);
    }
  }

  lemma SameResidue(a: nat, k: int)
    requires a + k >= 0
    ensures (a + k) % SLOTS == a % SLOTS <==> k % SLOTS == 0
  {
  }

  lemma NextQuotient(k: nat)
    requires k > 0
    ensures k / SLOTS == (k - 1) / SLOTS + if k % SLOTS == 0 then 1 else 0
  {
  }

  /** Blobs of the slots below `n`. */
  function CountBelow(first: nat, last: nat, n: nat): nat
    requires first <= last && n <= SLOTS
  {
    if n == 0 then 0 else CountBelow(first, last, n - 1) + ResidueCount(first, last, n - 1)
  }

  lemma {:induction false} CountGrows(first: nat, last: nat, n: nat)
    requires first < last && n <= SLOTS
    ensures CountBelow(first, last, n) == CountBelow(first, last - 1, n) + if last % SLOTS < n then 1 else 0
  {
    if n > 0 {
      CountGrows(first, last, n - 1);
      OneMore(first, last, n - 1);
    }
  }

  lemma {:induction false} CountStarts(first: nat, n: nat)
    requires n <= SLOTS
    ensures CountBelow(first, first, n) == if first % SLOTS < n then 1 else 0
  {
    if n > 0 {
      CountStarts(first, n - 1);
    }
  }

  /** The eight counts add up to the population. */
  lemma {:induction false} CountsAddUp(first: nat, last: nat)
    requires first <= last
    ensures CountBelow(first, last, SLOTS) == last - first + 1
    decreases last
  {
    hide CountBelow;
    if first == last {
      CountStarts(first, SLOTS);
    } else {
      CountsAddUp(first, last - 1);
      CountGrows(first, last, SLOTS);
    }
  }

  datatype Entry = Entry(slot: nat, blobs: nat)

  /** The plan over the slots below `n`: empty slots are left out. */
  function PlanBelow(first: nat, last: nat, n: nat): seq<Entry>
    requires first <= last && n <= SLOTS
  {
    if n == 0 then []
    else
      var count := ResidueCount(first, last, n - 1);
      PlanBelow(first, last, n - 1) + if count != 0 then [Entry(n - 1, count)] else []
  }

  method BuildPlan(first: nat, last: nat, population: nat) returns (r: Result<seq<Entry>>)
    ensures r.Ok? <==> first <= last && population == last - first + 1
    ensures r.Ok? ==> r.value == PlanBelow(first, last, SLOTS)
  {
    if last < first || population == 0 || population != last - first + 1 {
      return Err;
    }
    var plan: seq<Entry> := [];
    for slot := 0 to SLOTS
      invariant plan == PlanBelow(first, last, slot)
    {
      var count := ResidueCount(first, last, slot);
      if count != 0 {
        plan := plan + [Entry(slot, count)];
      }
    }
    return Ok(plan);
  }

  function Blobs(plan: seq<Entry>): nat {
    if plan == [] then 0 else Blobs(plan[..|plan| - 1]) + plan[|plan| - 1].blobs
  }

  lemma {:induction false} PlanTotal(first: nat, last: nat, n: nat)
    requires first <= last && n <= SLOTS
    ensures Blobs(PlanBelow(first, last, n)) == CountBelow(first, last, n)
  {
    if n > 0 {
      PlanTotal(first, last, n - 1);
      var init, plan := PlanBelow(first, last, n - 1), PlanBelow(first, last, n);
      if ResidueCount(first, last, n - 1) != 0 {
        assert plan[..|plan| - 1] == init;
      } else {
        assert plan == init;
      }
    }
  }

  // The money of a session.

  const UINT256: nat := 0x1_0000000000000000_0000000000000000_0000000000000000_0000000000000000

  datatype Obligation = Obligation(slot: nat, provider: Account, payee: Account, blobs: nat, fee: int)

  /** What a session is about: the deal, its owner and the root of the stored generation. */
  datatype Subject = Subject(deal: nat, owner: Account, root: seq<bv8>)

  /** Slot masks are sets of slots. */
  datatype Session = Session(
    subject: Subject, price: int, locked: int, first: nat, last: nat, population: nat, obligations: seq<Obligation>,
    acked: set<nat>, settled: set<nat>, refunded: set<nat>)

  /** The fees of the obligations in `slots`. */
  function Fees(obligations: seq<Obligation>, slots: set<nat>): int {
    if obligations == [] then 0
    else
      var o := obligations[|obligations| - 1];
      Fees(obligations[..|obligations| - 1], slots) + if o.slot in slots then o.fee else 0
  }

  /** The fees nobody has been paid or refunded yet. */
  function Open(obligations: seq<Obligation>, done: set<nat>): int {
    if obligations == [] then 0
    else
      var o := obligations[|obligations| - 1];
      Open(obligations[..|obligations| - 1], done) + if o.slot in done then 0 else o.fee
  }

  function Represented(obligations: seq<Obligation>): set<nat> {
    set i | 0 <= i < |obligations| :: obligations[i].slot
  }

  predicate ObligationOk(s: Session, i: nat)
    requires i < |s.obligations|
  {
    var o := s.obligations[i];
    && o.slot < SLOTS && (i > 0 ==> s.obligations[i - 1].slot < o.slot) && o.provider == o.payee
    && o.blobs > 0 && o.fee >= 0 && s.price * o.blobs < UINT256 && o.fee == s.price * o.blobs
    && Open(s.obligations[..i + 1], s.settled + s.refunded) < UINT256
  }

  predicate MasksOk(s: Session) {
    && s.acked + s.settled + s.refunded <= Represented(s.obligations)
    && s.settled * s.refunded == {} && s.settled <= s.acked
  }

  predicate MatchesPlan(s: Session, plan: seq<Entry>) {
    |plan| == |s.obligations| && forall i :: 0 <= i < |plan| ==> s.obligations[i].slot == plan[i].slot && s.obligations[i].blobs == plan[i].blobs
  }

  predicate Sound(s: Session) {
    && s.price >= 0 && s.locked >= 0 && 0 < |s.obligations| <= SLOTS
    && (forall i :: 0 <= i < |s.obligations| ==> ObligationOk(s, i))
    && MasksOk(s) && s.locked == Open(s.obligations, s.settled + s.refunded)
    && s.first <= s.last && s.population == s.last - s.first + 1
    && MatchesPlan(s, PlanBelow(s.first, s.last, SLOTS))
  }

  /** The checks a session snapshot passes before it is served. */
  method FreezeSession(s: Session) returns (ok: bool)
    ensures ok <==> Sound(s)
  {
    hide Open, Represented, PlanBelow, MatchesPlan;
    if s.price < 0 || s.locked < 0 || |s.obligations| == 0 || |s.obligations| > SLOTS {
      return false;
    }
    var represented: set<nat> := {};
    var remaining := 0;
    OpenNone(s.obligations, s.settled + s.refunded);
    for i := 0 to |s.obligations|
      invariant forall j :: 0 <= j < i ==> ObligationOk(s, j)
      invariant represented == Represented(s.obligations[..i])
      invariant remaining == Open(s.obligations[..i], s.settled + s.refunded)
    {
      var o := s.obligations[i];
      OpenOne(s.obligations, i, s.settled + s.refunded);
      if o.slot >= SLOTS || (i > 0 && s.obligations[i - 1].slot >= o.slot) || o.provider != o.payee || o.blobs == 0 || o.fee < 0 {
        assert !ObligationOk(s, i);
        return false;
      }
      var expected := s.price * o.blobs;
      if expected >= UINT256 || expected != o.fee {
        assert !ObligationOk(s, i);
        return false;
      }
      represented := represented + {o.slot};
      if o.slot !in s.settled && o.slot !in s.refunded {
        remaining := remaining + o.fee;
      }
      if remaining >= UINT256 {
        assert !ObligationOk(s, i);
        return false;
      }
    }
    assert s.obligations[..|s.obligations|] == s.obligations;
    if !(s.acked + s.settled + s.refunded <= represented) || s.settled * s.refunded != {} || !(s.settled <= s.acked) {
      return false;
    }
    if remaining != s.locked {
      return false;
    }
    var plan := BuildPlan(s.first, s.last, s.population);
    if plan.Err? {
      return false;
    }
    ok := ComparePlan(s, plan.value);
  }

  method ComparePlan(s: Session, plan: seq<Entry>) returns (ok: bool)
    ensures ok <==> MatchesPlan(s, plan)
  {
    if |plan| != |s.obligations| {
      return false;
    }
    for i := 0 to |plan|
      invariant forall j :: 0 <= j < i ==> s.obligations[j].slot == plan[j].slot && s.obligations[j].blobs == plan[j].blobs
    {
      if s.obligations[i].slot != plan[i].slot || s.obligations[i].blobs != plan[i].blobs {
        return false;
      }
    }
    return true;
  }

  lemma OpenNone(obligations: seq<Obligation>, done: set<nat>)
    ensures Open(obligations[..0], done) == 0 && Represented(obligations[..0]) == {}
  {
  }

  lemma OpenOne(obligations: seq<Obligation>, i: nat, done: set<nat>)
    requires i < |obligations|
    ensures Open(obligations[..i + 1], done) == Open(obligations[..i], done) + if obligations[i].slot in done then 0 else obligations[i].fee
    ensures Represented(obligations[..i + 1]) == Represented(obligations[..i]) + {obligations[i].slot}
  {
    assert obligations[..i + 1][..i] == obligations[..i];
    assert forall j :: 0 <= j < i ==> obligations[..i + 1][j] == obligations[..i][j];
    assert obligations[..i + 1][i] == obligations[i];
  }

  /** Every fee is open, settled or refunded, and no fee is two of them. */
  lemma {:induction false} FeesSplit(obligations: seq<Obligation>, settled: set<nat>, refunded: set<nat>, all: set<nat>)
    requires settled * refunded == {} && Represented(obligations) <= all
    ensures Fees(obligations, all) == Open(obligations, settled + refunded) + Fees(obligations, settled) + Fees(obligations, refunded)
    decreases |obligations|
  {
    if obligations != [] {
      var n := |obligations| - 1;
      OpenOne(obligations, n, settled + refunded);
      assert obligations[..n + 1] == obligations;
      assert obligations[n].slot in Represented(obligations) && obligations[n].slot !in settled * refunded;
      FeesSplit(obligations[..n], settled, refunded, all);
    }
  }

  lemma {:induction false} FeesArePriced(price: int, obligations: seq<Obligation>, plan: seq<Entry>, all: set<nat>)
    requires |obligations| == |plan| && Represented(obligations) <= all
    requires forall i :: 0 <= i < |plan| ==> obligations[i].blobs == plan[i].blobs && obligations[i].fee == price * obligations[i].blobs
    ensures Fees(obligations, all) == price * Blobs(plan)
    decreases |plan|
  {
    if plan != [] {
      var n := |plan| - 1;
      OpenOne(obligations, n, {});
      assert obligations[..n + 1] == obligations;
      assert obligations[n].slot in Represented(obligations);
      FeesArePriced(price, obligations[..n], plan[..n], all);
      Distribute(price, Blobs(plan[..n]), plan[n].blobs);
    }
  }

  lemma Distribute(a: int, b: int, c: int)
    ensures a * (b + c) == a * b + a * c
  {
  }

  lemma PlanIsWhole(first: nat, last: nat)
    requires first <= last
    ensures Blobs(PlanBelow(first, last, SLOTS)) == last - first + 1
  {
    hide PlanBelow, CountBelow, Blobs;
    PlanTotal(first, last, SLOTS);
    CountsAddUp(first, last);
  }

  lemma Disjoint(s: Session)
    requires MasksOk(s)
    ensures s.settled * s.refunded == {}
  {
  }

  /** What was locked at the start is what is still locked plus what was settled plus what was refunded. */
  lemma MoneyIsConserved(s: Session)
    requires Sound(s)
    ensures s.price * s.population == s.locked + Fees(s.obligations, s.settled) + Fees(s.obligations, s.refunded)
  {
    hide PlanBelow, Blobs, Open, Fees, MasksOk;
    var plan := PlanBelow(s.first, s.last, SLOTS);
    PlanIsWhole(s.first, s.last);
    Disjoint(s);
    forall i | 0 <= i < |plan|
      ensures s.obligations[i].blobs == plan[i].blobs && s.obligations[i].fee == s.price * s.obligations[i].blobs
    {
      assert ObligationOk(s, i);
    }
    FeesArePriced(s.price, s.obligations, plan, Represented(s.obligations));
    FeesSplit(s.obligations, s.settled, s.refunded, Represented(s.obligations));
  }

  // Delivering the blobs.

  /** Where blob `t` lies: its user MDU, its slot, and its row in the slot's shard. */
  function UserMdu(t: nat): nat { t / BLOBS_PER_MDU }
  function SlotOf(t: nat): nat { t % BLOBS_PER_MDU % SLOTS }
  function RowOf(t: nat): nat { t % BLOBS_PER_MDU / SLOTS }

  predicate InSlot(t: nat, slot: nat) {
    t % SLOTS == slot
  }

  /** The blobs of a planned range that lie in a user MDU and belong to a slot. */
  predicate Belongs(first: nat, last: nat, user: nat, slot: nat, t: nat) {
    first <= t <= last && UserMdu(t) == user && InSlot(t, slot)
  }

  ghost predicate Intersects(first: nat, last: nat, user: nat, slot: nat) {
    exists t :: Belongs(first, last, user, slot, t)
  }

  /** At most eight blobs, eight apart, and exactly those that belong. */
  ghost predicate IsChunk(chunk: seq<nat>, first: nat, last: nat, user: nat, slot: nat) {
    && 0 < |chunk| <= SLOTS && (forall t :: t in chunk <==> Belongs(first, last, user, slot, t))
    && (forall i :: 0 <= i < |chunk| ==> chunk[i] == chunk[0] + SLOTS * i)
  }

  /** The blobs of one slot in one user MDU, in order. */
  method DataChunk(planFirst: nat, planLast: nat, user: nat, slot: nat) returns (r: Result<seq<nat>>)
    requires slot < SLOTS
    ensures r.Ok? <==> Intersects(planFirst, planLast, user, slot)
    ensures r.Ok? ==> IsChunk(r.value, planFirst, planLast, user, slot)
  {
    var first: nat, last: nat := user * BLOBS_PER_MDU, user * BLOBS_PER_MDU + BLOBS_PER_MDU - 1;
    if first < planFirst {
      first := planFirst;
    }
    if last > planLast {
      last := planLast;
    }
    assert forall t: nat :: Belongs(planFirst, planLast, user, slot, t) <==> first <= t <= last && InSlot(t, slot);
    if first > last {
      return Err;
    }
    var delta := (slot + SLOTS - first % SLOTS) % SLOTS;
    var start := first + delta;
    StartsSlot(first, slot);
    if delta > last - first {
      return Err;
    }
    assert Belongs(planFirst, planLast, user, slot, start);
    var chunk: seq<nat> := [];
    var value := start;
    while value <= last
      invariant value == start + SLOTS * |chunk| && |chunk| <= SLOTS && (value <= last || |chunk| > 0)
      invariant forall i :: 0 <= i < |chunk| ==> chunk[i] == start + SLOTS * i
      invariant |chunk| > 0 ==> chunk[|chunk| - 1] <= last
      decreases last + SLOTS - value
    {
      chunk := chunk + [value];
      if last - value < SLOTS {
        break;
      }
      value := value + SLOTS;
    }
    ChunkIsAll(first, last, slot, start, chunk);
    return Ok(chunk);
  }

  datatype Chunk = Chunk(payee: string, blobs: seq<nat>)

  /** The payee of the first obligation of a slot; empty if there is none. */
  function Payee(obligations: seq<Obligation>, slot: nat): string {
    if obligations == [] then ""
    else if obligations[0].slot == slot then obligations[0].payee.address
    else Payee(obligations[1..], slot)
  }

  method FindPayee(obligations: seq<Obligation>, slot: nat) returns (payee: string)
    ensures payee == Payee(obligations, slot)
  {
    for i := 0 to |obligations|
      invariant Payee(obligations[i..], slot) == Payee(obligations, slot)
    {
      if obligations[i].slot == slot {
        return obligations[i].payee.address;
      }
      assert obligations[i..][1..] == obligations[i + 1..];
    }
    return "";
  }

  /** What a request for one slot of one MDU gets from a frozen session. */
  method FrozenDataChunk(s: Session, subject: Subject, metadata: nat, users: nat, mdu: nat, slot: nat) returns (r: Result<Chunk>)
    ensures r.Ok? <==>
              && subject == s.subject && slot < SLOTS && metadata <= mdu < metadata + users
              && slot !in s.acked + s.settled + s.refunded && Payee(s.obligations, slot) != ""
              && Intersects(s.first, s.last, mdu - metadata, slot)
    ensures r.Ok? ==> r.value.payee == Payee(s.obligations, slot) && IsChunk(r.value.blobs, s.first, s.last, mdu - metadata, slot)
  {
    hide Intersects, IsChunk;
    if subject != s.subject || slot >= SLOTS || mdu < metadata || mdu - metadata >= users {
      return Err;
    }
    if slot in s.acked || slot in s.settled || slot in s.refunded {
      return Err;
    }
    var payee := FindPayee(s.obligations, slot);
    if payee == "" {
      return Err;
    }
    var blobs := DataChunk(s.first, s.last, mdu - metadata, slot);
    if blobs.Err? {
      return Err;
    }
    return Ok(Chunk(payee, blobs.value));
  }

  lemma {:induction false} PayeeOfSlot(obligations: seq<Obligation>, slot: nat, i: nat)
    requires i < |obligations| && obligations[i].slot == slot
    requires forall j :: 0 <= j < i ==> obligations[j].slot != slot
    ensures Payee(obligations, slot) == obligations[i].payee.address
    decreases i
  {
    if i > 0 {
      PayeeOfSlot(obligations[1..], slot, i - 1);
    }
  }

  /** In a session that passed its checks, the payee of a planned slot is the provider of its one obligation. */
  lemma PayeeIsProvider(s: Session, i: nat)
    requires Sound(s) && i < |s.obligations|
    ensures Payee(s.obligations, s.obligations[i].slot) == s.obligations[i].provider.address
  {
    hide Open, Represented, PlanBelow, MatchesPlan;
    assert ObligationOk(s, i);
    forall j | 0 <= j < i
      ensures s.obligations[j].slot != s.obligations[i].slot
    {
      SlotsAscend(s, j, i);
    }
    PayeeOfSlot(s.obligations, s.obligations[i].slot, i);
  }

  lemma {:induction false} SlotsAscend(s: Session, j: nat, i: nat)
    requires Sound(s) && j < i < |s.obligations|
    ensures s.obligations[j].slot < s.obligations[i].slot
    decreases i
  {
    hide Open, Represented, PlanBelow, MatchesPlan;
    assert ObligationOk(s, i);
    if j < i - 1 {
      SlotsAscend(s, j, i - 1);
    }
  }

  /** A served session has an obligation for every slot that has blobs, so no planned blob is undeliverable. */
  lemma SlotsAreRepresented(s: Session, t: nat)
    requires Sound(s) && s.first <= t <= s.last
    ensures exists i :: 0 <= i < |s.obligations| && s.obligations[i].slot == t % SLOTS
  {
    hide Open, Represented, PlanBelow, ObligationOk, MasksOk;
    var plan := PlanBelow(s.first, s.last, SLOTS);
    SlotsArePlanned(s.first, s.last, t, SLOTS);
    var e :| e in plan && e.slot == t % SLOTS;
    var i :| 0 <= i < |plan| && plan[i] == e;
    assert s.obligations[i].slot == t % SLOTS;
  }

  lemma {:induction false} SlotsArePlanned(first: nat, last: nat, t: nat, n: nat)
    requires first <= t <= last && t % SLOTS < n <= SLOTS
    ensures t % SLOTS in PlanSlots(PlanBelow(first, last, n))
  {
    var plan, init := PlanBelow(first, last, n), PlanBelow(first, last, n - 1);
    if t % SLOTS == n - 1 {
      ResidueCountIsExact(first, last, n - 1);
      assert t in Residues(first, last, n - 1);
      assert plan[|plan| - 1] in plan && plan[|plan| - 1].slot == n - 1;
    } else {
      SlotsArePlanned(first, last, t, n - 1);
      var e :| e in init && e.slot == t % SLOTS;
      assert e in plan;
    }
  }

  function PlanSlots(plan: seq<Entry>): set<nat> {
    set e | e in plan :: e.slot
  }

  lemma StartsSlot(first: nat, slot: nat)
    requires slot < SLOTS
    ensures var start := first + Delta(first, slot);
            InSlot(start, slot) && forall t :: first <= t < start ==> !InSlot(t, slot)
  {
    DeltaIs(first, slot);
    forall t | first <= t < first + Delta(first, slot)
      ensures !InSlot(t, slot)
    {
      Offset(first, t - first);
    }
    Offset(first, Delta(first, slot));
  }

  lemma DeltaIs(first: nat, slot: nat)
    requires slot < SLOTS
    ensures Delta(first, slot) == if slot >= first % SLOTS then slot - first % SLOTS else slot + SLOTS - first % SLOTS
  {
  }

  lemma Offset(first: nat, d: nat)
    requires d < SLOTS
    ensures (first + d) % SLOTS == if first % SLOTS + d < SLOTS then first % SLOTS + d else first % SLOTS + d - SLOTS
  {
  }

  lemma ChunkIsAll(first: nat, last: nat, slot: nat, start: nat, chunk: seq<nat>)
    requires first <= start <= last && InSlot(start, slot) && forall t :: first <= t < start ==> !InSlot(t, slot)
    requires chunk != [] && (forall i :: 0 <= i < |chunk| ==> chunk[i] == start + SLOTS * i)
    requires chunk[|chunk| - 1] <= last < chunk[|chunk| - 1] + SLOTS
    ensures forall t :: t in chunk <==> first <= t <= last && InSlot(t, slot)
  {
    forall t | first <= t <= last && InSlot(t, slot)
      ensures t in chunk
    {
      assert t >= start;
      Steps(start, t);
      assert chunk[(t - start) / SLOTS] == t;
    }
  }

  lemma Steps(start: nat, t: nat)
    requires start <= t && start % SLOTS == t % SLOTS
    ensures t == start + SLOTS * ((t - start) / SLOTS)
  {
  }

  /** Every blob of the range is in the chunk of its own MDU and slot and in no other. */
  lemma ChunksPartition(first: nat, last: nat, t: nat, user: nat, slot: nat)
    requires first <= t <= last && slot < SLOTS
    ensures Belongs(first, last, user, slot, t) <==> user == UserMdu(t) && slot == SlotOf(t)
  {
    SlotIsResidue(t);
  }

  lemma SlotIsResidue(t: nat)
    ensures SlotOf(t) == t % SLOTS
  {
    assert t == BLOBS_PER_MDU * (t / BLOBS_PER_MDU) + t % BLOBS_PER_MDU;
    assert t == SLOTS * (SLOTS * (t / BLOBS_PER_MDU)) + t % BLOBS_PER_MDU;
  }

  /** A chunk reads consecutive rows of one shard: blob `i` of the chunk is row `start + i`. */
  lemma ChunkIsConsecutive(first: nat, last: nat, user: nat, slot: nat, chunk: seq<nat>, i: nat)
    requires slot < SLOTS && i < |chunk| && IsChunk(chunk, first, last, user, slot)
    ensures SlotOf(chunk[i]) == slot && RowOf(chunk[i]) == RowOf(chunk[0]) + i < SLOTS
  {
    hide UserMdu, SlotOf, RowOf;
    assert chunk[0] in chunk && chunk[i] in chunk;
    InMdu(user, chunk[0]);
    InMdu(user, chunk[i]);
    Rows(chunk[0] - BLOBS_PER_MDU * user, i);
    SlotIsResidue(chunk[i]);
  }

  lemma InMdu(user: nat, t: nat)
    requires UserMdu(t) == user
    ensures 0 <= t - BLOBS_PER_MDU * user < BLOBS_PER_MDU && RowOf(t) == (t - BLOBS_PER_MDU * user) / SLOTS
  {
  }

  lemma Rows(r: nat, i: nat)
    ensures (r + SLOTS * i) / SLOTS == r / SLOTS + i
  {
  }

  // Ordinary sessions.

  function PlannedObligations(price: nat, plan: seq<Entry>, provider: nat -> Account): seq<Obligation> {
    seq(|plan|, i requires 0 <= i < |plan| =>
      Obligation(plan[i].slot, provider(plan[i].slot), provider(plan[i].slot), plan[i].blobs, price * plan[i].blobs))
  }

  /** A session over a range: one obligation per slot with blobs, paid to its provider, and the unpaid fees locked. */
  function Ordinary(
    subject: Subject, price: nat, first: nat, last: nat, provider: nat -> Account, acked: set<nat>, settled: set<nat>, refunded: set<nat>): Session
    requires first <= last
  {
    var obligations := PlannedObligations(price, PlanBelow(first, last, SLOTS), provider);
    Session(subject, price, Open(obligations, settled + refunded), first, last, last - first + 1, obligations, acked, settled, refunded)
  }

  lemma {:induction false} PlanShape(first: nat, last: nat, n: nat)
    requires first <= last && n <= SLOTS
    ensures var plan := PlanBelow(first, last, n);
            |plan| <= n && forall i :: 0 <= i < |plan| ==> plan[i].slot < n && plan[i].blobs > 0 && (i > 0 ==> plan[i - 1].slot < plan[i].slot)
  {
    if n > 0 {
      PlanShape(first, last, n - 1);
    }
  }

  lemma {:induction false} OpenBound(price: nat, plan: seq<Entry>, provider: nat -> Account, done: set<nat>, k: nat)
    requires k <= |plan|
    ensures 0 <= Open(PlannedObligations(price, plan, provider)[..k], done) <= price * Blobs(plan[..k])
    decreases k
  {
    hide Open, Blobs, Represented;
    var obligations := PlannedObligations(price, plan, provider);
    if k == 0 {
      OpenNone(obligations, done);
      NoBlobs(plan);
    } else {
      OpenBound(price, plan, provider, done, k - 1);
      OpenOne(obligations, k - 1, done);
      BlobsOne(plan, k - 1);
      Distributes(price, Blobs(plan[..k - 1]), plan[k - 1].blobs);
      assert obligations[k - 1].fee == price * plan[k - 1].blobs;
    }
  }

  lemma NoBlobs(plan: seq<Entry>)
    ensures Blobs(plan[..0]) == 0
  {
  }

  lemma BlobsOne(plan: seq<Entry>, k: nat)
    requires k < |plan|
    ensures Blobs(plan[..k + 1]) == Blobs(plan[..k]) + plan[k].blobs
  {
    assert plan[..k + 1][..k] == plan[..k];
  }

  lemma Distributes(price: nat, a: nat, b: nat)
    ensures price * (a + b) == price * a + price * b && price * b >= 0
  {
  }

  lemma {:induction false} BlobsGrow(plan: seq<Entry>, k: nat)
    requires k <= |plan|
    ensures Blobs(plan[..k]) <= Blobs(plan)
    decreases |plan| - k
  {
    if k < |plan| {
      assert plan[..k + 1][..k] == plan[..k];
      BlobsGrow(plan, k + 1);
    } else {
      assert plan[..k] == plan;
    }
  }

  lemma Cheaper(price: nat, a: nat, b: nat)
    requires a <= b
    ensures price * a <= price * b
  {
  }

  lemma PlannedIsOk(s: Session, provider: nat -> Account, i: nat)
    requires s.first <= s.last && s.price >= 0 && s.price * (s.last - s.first + 1) < UINT256
    requires s.obligations == PlannedObligations(s.price, PlanBelow(s.first, s.last, SLOTS), provider) && i < |s.obligations|
    ensures ObligationOk(s, i)
  {
    hide PlanBelow, Open;
    var plan, done := PlanBelow(s.first, s.last, SLOTS), s.settled + s.refunded;
    PlanShape(s.first, s.last, SLOTS);
    PlanIsWhole(s.first, s.last);
    OpenBound(s.price, plan, provider, done, i + 1);
    BlobsGrow(plan, i + 1);
    Cheaper(s.price, Blobs(plan[..i + 1]), Blobs(plan));
    OneOfBlobs(plan, i);
    Cheaper(s.price, plan[i].blobs, Blobs(plan));
  }

  lemma OneOfBlobs(plan: seq<Entry>, i: nat)
    requires i < |plan|
    ensures plan[i].blobs <= Blobs(plan)
  {
    assert plan[..i + 1][..i] == plan[..i];
    BlobsGrow(plan, i + 1);
  }

  lemma OrdinaryIsRepresented(price: nat, first: nat, last: nat, provider: nat -> Account, t: nat)
    requires first <= t <= last
    ensures t % SLOTS in Represented(PlannedObligations(price, PlanBelow(first, last, SLOTS), provider))
  {
    hide PlanBelow;
    var plan := PlanBelow(first, last, SLOTS);
    SlotsArePlanned(first, last, t, SLOTS);
    var e :| e in plan && e.slot == t % SLOTS;
    var i :| 0 <= i < |plan| && plan[i] == e;
    assert PlannedObligations(price, plan, provider)[i].slot == t % SLOTS;
  }

  /**
   Every ordinary session is accepted: any range, price and providers whose whole fee fits
   into 256 bits, with settled slots among the acknowledged ones, refunded slots apart from
   them, and all of them slots of the range.
   */
  lemma OrdinaryIsAccepted(
    subject: Subject, price: nat, first: nat, last: nat, provider: nat -> Account, acked: set<nat>, settled: set<nat>, refunded: set<nat>)
    requires first <= last && price * (last - first + 1) < UINT256
    requires settled <= acked && settled * refunded == {}
    requires forall slot :: slot in acked + refunded ==> exists t :: first <= t <= last && t % SLOTS == slot
    ensures Sound(Ordinary(subject, price, first, last, provider, acked, settled, refunded))
  {
    hide PlanBelow, Open, ObligationOk, Represented;
    var s := Ordinary(subject, price, first, last, provider, acked, settled, refunded);
    PlanShape(first, last, SLOTS);
    OrdinaryIsRepresented(price, first, last, provider, first);
    SomeObligation(s.obligations, first % SLOTS);
    forall i | 0 <= i < |s.obligations|
      ensures ObligationOk(s, i)
    {
      PlannedIsOk(s, provider, i);
    }
    forall slot | slot in acked + settled + refunded
      ensures slot in Represented(s.obligations)
    {
      assert slot in acked + refunded;
      var t: int :| first <= t <= last && t % SLOTS == slot;
      OrdinaryIsRepresented(price, first, last, provider, t);
    }
    var plan := PlanBelow(first, last, SLOTS);
    OpenBound(price, plan, provider, settled + refunded, |plan|);
    assert s.obligations[..|plan|] == s.obligations;
  }

  /** The provider of the first obligation of a slot. */
  function ProviderOf(obligations: seq<Obligation>, slot: nat): Account {
    if obligations == [] then Account("")
    else if obligations[0].slot == slot then obligations[0].provider
    else ProviderOf(obligations[1..], slot)
  }

  lemma {:induction false} ProviderOfSlot(obligations: seq<Obligation>, slot: nat, i: nat)
    requires i < |obligations| && obligations[i].slot == slot
    requires forall j :: 0 <= j < i ==> obligations[j].slot != slot
    ensures ProviderOf(obligations, slot) == obligations[i].provider
    decreases i
  {
    if i > 0 {
      ProviderOfSlot(obligations[1..], slot, i - 1);
    }
  }

  /** And only ordinary sessions are: whatever passes the checks is the ordinary session of its range, price and providers. */
  lemma AcceptedIsOrdinary(s: Session)
    requires Sound(s)
    ensures s == Ordinary(s.subject, s.price, s.first, s.last, (slot: nat) => ProviderOf(s.obligations, slot), s.acked, s.settled, s.refunded)
  {
    hide PlanBelow, Open, Represented;
    var plan, provider := PlanBelow(s.first, s.last, SLOTS), (slot: nat) => ProviderOf(s.obligations, slot);
    var planned := PlannedObligations(s.price, plan, provider);
    forall i | 0 <= i < |s.obligations|
      ensures s.obligations[i] == planned[i]
    {
      assert ObligationOk(s, i);
      forall j | 0 <= j < i
        ensures s.obligations[j].slot != s.obligations[i].slot
      {
        SlotsAscend(s, j, i);
      }
      ProviderOfSlot(s.obligations, s.obligations[i].slot, i);
    }
    assert s.obligations == planned;
  }

  lemma SomeObligation(obligations: seq<Obligation>, slot: nat)
    requires slot in Represented(obligations)
    ensures |obligations| > 0
  {
  }

  /** An acknowledged slot that is neither settled nor refunded still has its fee locked, and nothing more is served for it. */
  lemma AcknowledgedIsLocked(s: Session, slot: nat) returns (i: nat)
    requires Sound(s) && slot in s.acked && slot !in s.settled && slot !in s.refunded
    ensures i < |s.obligations| && s.obligations[i].slot == slot && s.obligations[i].fee <= s.locked
  {
    hide PlanBelow, MatchesPlan;
    i :| 0 <= i < |s.obligations| && s.obligations[i].slot == slot;
    assert forall j :: 0 <= j < |s.obligations| ==> ObligationOk(s, j) && s.obligations[j].fee >= 0;
    OpenHas(s, s.settled + s.refunded, i, |s.obligations|);
    assert s.obligations[..|s.obligations|] == s.obligations;
  }

  /** Settled slots were acknowledged, refunded ones were not settled, and all have an obligation. */
  lemma ClosedSlots(s: Session, slot: nat)
    requires Sound(s)
    ensures slot in s.settled ==> slot in s.acked && slot !in s.refunded
    ensures slot in s.acked + s.refunded ==> exists i :: 0 <= i < |s.obligations| && s.obligations[i].slot == slot
  {
    hide PlanBelow, MatchesPlan, Open, ObligationOk;
    assert slot in s.settled * s.refunded <==> slot in s.settled && slot in s.refunded;
  }

  lemma {:induction false} OpenHas(s: Session, done: set<nat>, i: nat, n: nat)
    requires i < n <= |s.obligations| && s.obligations[i].slot !in done && forall j :: 0 <= j < |s.obligations| ==> s.obligations[j].fee >= 0
    ensures s.obligations[i].fee <= Open(s.obligations[..n], done)
    decreases n
  {
    OpenOne(s.obligations, n - 1, done);
    if i < n - 1 {
      OpenHas(s, done, i, n - 1);
    } else {
      OpenPositive(s, done, n - 1);
    }
  }

  lemma {:induction false} OpenPositive(s: Session, done: set<nat>, n: nat)
    requires n <= |s.obligations| && forall j :: 0 <= j < |s.obligations| ==> s.obligations[j].fee >= 0
    ensures Open(s.obligations[..n], done) >= 0
    decreases n
  {
    if n > 0 {
      OpenOne(s.obligations, n - 1, done);
      OpenPositive(s, done, n - 1);
    }
  }
}
