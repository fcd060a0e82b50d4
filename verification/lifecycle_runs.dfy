/**
 Runs of the generation lifecycle: readers, publishers, garbage collection and other
 processes interleave, each step atomic under the registry mutex or in the filesystem.
 */
module LifecycleRuns {
  import opened Lifecycle

  datatype Holder = Reader(n: nat) | Publisher(n: nat)

  /** What identifies a directory to garbage collection. */
  datatype Dir = Dir(inode: nat, modified: int)

  /** `grants` counts the leases granted on the path since the watch began. */
  datatype Candidate = Candidate(path: Path, serial: nat, revision: nat, info: Dir, grants: nat)

  datatype Phase = Begun | Marked | Locked | Comparing | Moved | Unlocked | Ended

  datatype Publication = Publication(stage: Path, final: Path, phase: Phase)

  datatype World = World(
    reg: Registry, leases: map<Holder, set<Path>>, watches: map<nat, Candidate>, pubs: map<nat, Publication>,
    dirs: map<Path, Dir>, locks: set<Path>)

  datatype Event =
    | Lease(n: nat, paths: set<Path>)
    | Release(n: nat)
    | Watch(i: nat, path: Path)
    | Close(i: nat)
    | Remove(i: nat, keep: bool, movable: bool)
    | Begin(n: nat, stage: Path, final: Path)
    | Mark(n: nat)
    | Lock(n: nat)
    | Move(n: nat, movable: bool)
    | Compare(n: nat, same: bool)
    | Unlock(n: nat)
    | Unmark(n: nat)
    | End(n: nat)
    | Outside(dirs: map<Path, Dir>, locks: set<Path>)

  predicate Exclusive(ph: Phase) {
    ph != Begun && ph != Ended
  }

  predicate HoldsLock(ph: Phase) {
    ph == Locked || ph == Comparing || ph == Moved
  }

  ghost predicate At(pubs: map<nat, Publication>, n: nat, ph: Phase) {
    n in pubs && pubs[n].phase == ph
  }

  ghost predicate Enabled(w: World, e: Event) {
    match e
    case Lease(n, paths) => Reader(n) !in w.leases
    case Release(n) => Reader(n) in w.leases
    case Watch(i, path) => i !in w.watches
    case Close(i) => i in w.watches
    case Remove(i, keep, movable) => i in w.watches
    case Begin(n, stage, final) => n !in w.pubs
    case Mark(n) => At(w.pubs, n, Begun)
    case Lock(n) => At(w.pubs, n, Marked)
    case Move(n, movable) => At(w.pubs, n, Locked)
    case Compare(n, same) => At(w.pubs, n, Comparing)
    case Unlock(n) => At(w.pubs, n, Moved)
    case Unmark(n) => At(w.pubs, n, Unlocked)
    case End(n) => At(w.pubs, n, Ended)
    case Outside(dirs, locks) => forall n :: n in w.pubs && HoldsLock(w.pubs[n].phase) ==> w.pubs[n].final in locks
  }

  function Bumped(watches: map<nat, Candidate>, ps: set<Path>): map<nat, Candidate> {
    map i | i in watches :: if watches[i].path in ps then watches[i].(grants := watches[i].grants + 1) else watches[i]
  }

  function Grant(w: World, h: Holder, ps: set<Path>): World {
    w.(reg := Acquired(w.reg, ps, LEASE), leases := w.leases[h := ps], watches := Bumped(w.watches, ps))
  }

  function Return(w: World, h: Holder): World {
    if h in w.leases then w.(reg := Dropped(w.reg, w.leases[h], RELEASE), leases := w.leases - {h}) else w
  }

  function To(pubs: map<nat, Publication>, n: nat, ph: Phase): map<nat, Publication> {
    if n in pubs then pubs[n := pubs[n].(phase := ph)] else pubs
  }

  function RefsOf(r: Registry, p: Path): int {
    if p in r.uses then r.uses[p].refs else 0
  }

  function Flag(r: Registry, p: Path, publishing: bool): Registry {
    if p in r.uses then SetPublishing(r, p, publishing) else r
  }

  /** The last check before a directory is moved to quarantine, through the candidate's own entry. */
  ghost predicate Collects(w: World, i: nat, keep: bool) {
    && i in w.watches && !keep
    && var c := w.watches[i];
    && c.path in w.reg.uses && w.reg.uses[c.path].serial == c.serial
    && w.reg.uses[c.path].refs == 0 && w.reg.uses[c.path].revision == c.revision
    && c.path in w.dirs && w.dirs[c.path] == c.info && c.path !in w.locks
  }

  ghost function Apply(w: World, e: Event): World
    requires Enabled(w, e)
  {
    match e
    case Lease(n, paths) => if CanLease(w.reg, paths) then Grant(w, Reader(n), paths) else w
    case Release(n) => Return(w, Reader(n))
    case Watch(i, path) =>
      if path in w.dirs && CanWatch(w.reg, path) then
        w.(reg := Acquired(w.reg, {path}, WATCH),
           watches := w.watches[i := Candidate(path, UseOf(w.reg, path).serial, UseOf(w.reg, path).revision, w.dirs[path], 0)])
      else w
    case Close(i) => w.(reg := Dropped(w.reg, {w.watches[i].path}, CLOSE), watches := w.watches - {i})
    case Remove(i, keep, movable) =>
      if Collects(w, i, keep) && movable then w.(dirs := w.dirs - {w.watches[i].path}) else w
    case Begin(n, stage, final) =>
      if CanLease(w.reg, {stage, final}) then
        Grant(w, Publisher(n), {stage, final}).(pubs := w.pubs[n := Publication(stage, final, Begun)])
      else w
    case Mark(n) =>
      if RefsOf(w.reg, w.pubs[n].stage) == 1 then w.(reg := Flag(w.reg, w.pubs[n].stage, true), pubs := To(w.pubs, n, Marked))
      else w.(pubs := To(w.pubs, n, Ended))
    case Lock(n) =>
      if w.pubs[n].final !in w.locks then w.(locks := w.locks + {w.pubs[n].final}, pubs := To(w.pubs, n, Locked))
      else w.(pubs := To(w.pubs, n, Unlocked))
    case Move(n, movable) =>
      var p := w.pubs[n];
      if p.final in w.dirs then w.(pubs := To(w.pubs, n, Comparing))
      else if p.stage in w.dirs && movable then
        w.(dirs := (w.dirs - {p.stage})[p.final := w.dirs[p.stage]], pubs := To(w.pubs, n, Moved))
      else w.(pubs := To(w.pubs, n, Moved))
    case Compare(n, same) =>
      w.(dirs := if same then w.dirs - {w.pubs[n].stage} else w.dirs, pubs := To(w.pubs, n, Moved))
    case Unlock(n) => w.(locks := w.locks - {w.pubs[n].final}, pubs := To(w.pubs, n, Unlocked))
    case Unmark(n) => w.(reg := Flag(w.reg, w.pubs[n].stage, false), pubs := To(w.pubs, n, Ended))
    case End(n) => Return(w, Publisher(n)).(pubs := w.pubs - {n})
    case Outside(dirs, locks) => w.(dirs := dirs, locks := locks)
  }

  ghost function Leases(leases: map<Holder, set<Path>>, p: Path): set<Holder> {
    set h | h in leases && p in leases[h]
  }

  ghost function Watchers(watches: map<nat, Candidate>, p: Path): set<nat> {
    set i | i in watches && watches[i].path == p
  }

  ghost function Publishers(pubs: map<nat, Publication>, p: Path): set<nat> {
    set n | n in pubs && Exclusive(pubs[n].phase) && pubs[n].stage == p
  }

  /** An entry exists exactly while somebody holds or watches its path, and counts them. */
  ghost predicate Counted(r: Registry, leases: map<Holder, set<Path>>, watches: map<nat, Candidate>, p: Path) {
    && (p in r.uses <==> Leases(leases, p) != {} || Watchers(watches, p) != {})
    && (p in r.uses ==> r.uses[p].refs == |Leases(leases, p)| && r.uses[p].watchers == |Watchers(watches, p)|)
  }

  /** A watch still refers to the registered entry, and its revision counts the grants since. */
  ghost predicate Pinned(r: Registry, c: Candidate) {
    && c.path in r.uses && r.uses[c.path].serial == c.serial
    && r.uses[c.path].revision == (c.revision + c.grants) % REVISIONS && c.revision < REVISIONS
  }

  ghost predicate Flagged(r: Registry, pubs: map<nat, Publication>, p: Path) {
    (p in r.uses && r.uses[p].publishing) <==> Publishers(pubs, p) != {}
  }

  ghost predicate Publishing(leases: map<Holder, set<Path>>, locks: set<Path>, n: nat, p: Publication) {
    && Publisher(n) in leases && leases[Publisher(n)] == {p.stage, p.final}
    && (Exclusive(p.phase) ==> Leases(leases, p.stage) == {Publisher(n)})
    && (HoldsLock(p.phase) ==> p.final in locks)
  }

  ghost predicate LocksApart(pubs: map<nat, Publication>) {
    forall m, n :: m in pubs && n in pubs && HoldsLock(pubs[m].phase) && HoldsLock(pubs[n].phase) && pubs[m].final == pubs[n].final ==> m == n
  }

  ghost predicate AllCounted(r: Registry, leases: map<Holder, set<Path>>, watches: map<nat, Candidate>) {
    |r.uses| <= MAX_REFERENCES && forall p :: Counted(r, leases, watches, p)
  }

  ghost predicate AllPinned(r: Registry, watches: map<nat, Candidate>) {
    (forall p :: p in r.uses ==> r.uses[p].revision < REVISIONS) && forall i :: i in watches ==> Pinned(r, watches[i])
  }

  ghost predicate AllFlagged(r: Registry, pubs: map<nat, Publication>) {
    forall p :: Flagged(r, pubs, p)
  }

  ghost predicate AllPublishing(leases: map<Holder, set<Path>>, locks: set<Path>, pubs: map<nat, Publication>) {
    && (forall n :: n in pubs ==> Publishing(leases, locks, n, pubs[n]))
    && (forall n :: Publisher(n) in leases ==> n in pubs)
    && LocksApart(pubs)
  }

  ghost predicate Inv(w: World) {
    && AllCounted(w.reg, w.leases, w.watches)
    && AllPinned(w.reg, w.watches)
    && AllFlagged(w.reg, w.pubs)
    && AllPublishing(w.leases, w.locks, w.pubs)
  }

  function Init(dirs: map<Path, Dir>, locks: set<Path>): World {
    World(Registry(map[], map[]), map[], map[], map[], dirs, locks)
  }

  lemma InitInv(dirs: map<Path, Dir>, locks: set<Path>)
    ensures Inv(Init(dirs, locks))
  {
    var w := Init(dirs, locks);
    forall p
      ensures Counted(w.reg, w.leases, w.watches, p) && Flagged(w.reg, w.pubs, p)
    {
    }
  }

  // Granting and returning leases.

  lemma AcquiredAt(r: Registry, ps: set<Path>, d: Delta, p: Path)
    ensures p in Acquired(r, ps, d).uses <==> p in r.uses || p in ps
    ensures p in ps ==> Acquired(r, ps, d).uses[p] == Adjusted(UseOf(r, p), d)
    ensures p in r.uses && p !in ps ==> Acquired(r, ps, d).uses[p] == r.uses[p]
  {
    hide Adjusted, AcquiredMade;
  }

  lemma DroppedAt(r: Registry, ps: set<Path>, d: Delta, p: Path)
    ensures p in Dropped(r, ps, d).uses <==> p in r.uses && !(p in ps && Idle(Adjusted(r.uses[p], d)))
    ensures p in Dropped(r, ps, d).uses ==> Dropped(r, ps, d).uses[p] == if p in ps then Adjusted(r.uses[p], d) else r.uses[p]
  {
    hide Adjusted;
  }

  lemma LeasesAdd(leases: map<Holder, set<Path>>, h: Holder, ps: set<Path>, p: Path)
    requires h !in leases
    ensures Leases(leases[h := ps], p) == if p in ps then Leases(leases, p) + {h} else Leases(leases, p)
    ensures h !in Leases(leases, p)
  {
  }

  lemma LeasesDrop(leases: map<Holder, set<Path>>, h: Holder, p: Path)
    requires h in leases
    ensures Leases(leases - {h}, p) == Leases(leases, p) - {h}
    ensures h in Leases(leases, p) <==> p in leases[h]
  {
  }

  lemma WatchersBumped(watches: map<nat, Candidate>, ps: set<Path>, p: Path)
    ensures Watchers(Bumped(watches, ps), p) == Watchers(watches, p)
  {
  }

  lemma AcquiredSize(r: Registry, ps: set<Path>, d: Delta)
    ensures |Acquired(r, ps, d).uses| == |r.uses| + |ps - r.uses.Keys|
  {
    hide Adjusted, AcquiredMade;
    var u := Acquired(r, ps, d).uses;
    assert u.Keys == r.uses.Keys + (ps - r.uses.Keys);
    assert |u| == |u.Keys| && |r.uses| == |r.uses.Keys|;
  }

  lemma DroppedSize(r: Registry, ps: set<Path>, d: Delta)
    ensures |Dropped(r, ps, d).uses| <= |r.uses|
  {
    hide Adjusted;
    var u := Dropped(r, ps, d).uses;
    var gone := r.uses.Keys - u.Keys;
    assert r.uses.Keys == u.Keys + gone;
    assert |u| == |u.Keys| && |r.uses| == |r.uses.Keys|;
  }

  lemma GrantCounted(w: World, h: Holder, ps: set<Path>)
    requires AllCounted(w.reg, w.leases, w.watches) && CanLease(w.reg, ps) && h !in w.leases
    ensures AllCounted(Grant(w, h, ps).reg, Grant(w, h, ps).leases, Grant(w, h, ps).watches)
  {
    hide Acquired, Counted, Bumped, Free;
    AcquiredSize(w.reg, ps, LEASE);
    var u := Grant(w, h, ps);
    forall p
      ensures Counted(u.reg, u.leases, u.watches, p)
    {
      GrantCountedAt(w, h, ps, p);
    }
  }

  lemma GrantCountedAt(w: World, h: Holder, ps: set<Path>, p: Path)
    requires Counted(w.reg, w.leases, w.watches, p) && h !in w.leases
    ensures Counted(Acquired(w.reg, ps, LEASE), w.leases[h := ps], Bumped(w.watches, ps), p)
  {
    hide Acquired, Leases, Watchers, Bumped, Adjusted;
    AcquiredAt(w.reg, ps, LEASE, p);
    AdjustedCounts(UseOf(w.reg, p), LEASE);
    LeasesAdd(w.leases, h, ps, p);
    WatchersBumped(w.watches, ps, p);
    var before := Leases(w.leases, p);
    assert |before + {h}| == |before| + 1;
  }

  lemma AdjustedCounts(u: Use, d: Delta)
    ensures Adjusted(u, d).refs == u.refs + d.refs && Adjusted(u, d).watchers == u.watchers + d.watchers
  {
  }

  lemma GrantPinned(w: World, h: Holder, ps: set<Path>)
    requires AllPinned(w.reg, w.watches)
    ensures AllPinned(Grant(w, h, ps).reg, Grant(w, h, ps).watches)
  {
    hide Acquired;
    var u := Grant(w, h, ps);
    forall p | p in u.reg.uses
      ensures u.reg.uses[p].revision < REVISIONS
    {
      AcquiredAt(w.reg, ps, LEASE, p);
    }
    forall i | i in u.watches
      ensures Pinned(u.reg, u.watches[i])
    {
      assert Pinned(w.reg, w.watches[i]);
      AcquiredAt(w.reg, ps, LEASE, w.watches[i].path);
    }
  }

  lemma GrantFlagged(w: World, h: Holder, ps: set<Path>)
    requires AllFlagged(w.reg, w.pubs)
    ensures AllFlagged(Grant(w, h, ps).reg, w.pubs)
  {
    hide Acquired, Publishers;
    var u := Grant(w, h, ps);
    forall p
      ensures Flagged(u.reg, w.pubs, p)
    {
      assert Flagged(w.reg, w.pubs, p);
      AcquiredAt(w.reg, ps, LEASE, p);
    }
  }

  /** A granted lease never covers a stage that is being published. */
  lemma GrantPublishing(w: World, h: Holder, ps: set<Path>, n: nat)
    requires Inv(w) && CanLease(w.reg, ps) && h !in w.leases && n in w.pubs
    ensures Publishing(w.leases[h := ps], w.locks, n, w.pubs[n])
  {
    hide Watchers;
    var p := w.pubs[n];
    assert Publishing(w.leases, w.locks, n, p);
    LeasesAdd(w.leases, h, ps, p.stage);
    assert Flagged(w.reg, w.pubs, p.stage);
    assert Exclusive(p.phase) ==> n in Publishers(w.pubs, p.stage);
  }

  lemma LeaseOk(w: World, n: nat, ps: set<Path>)
    requires Inv(w) && Reader(n) !in w.leases && CanLease(w.reg, ps)
    ensures Inv(Grant(w, Reader(n), ps))
  {
    hide AllCounted, AllPinned, AllFlagged, Acquired, Bumped, CanLease, Publishing;
    GrantCounted(w, Reader(n), ps);
    GrantPinned(w, Reader(n), ps);
    GrantFlagged(w, Reader(n), ps);
    forall m | m in w.pubs
      ensures Publishing(w.leases[Reader(n) := ps], w.locks, m, w.pubs[m])
    {
      GrantPublishing(w, Reader(n), ps, m);
    }
  }

  lemma BeginOk(w: World, n: nat, stage: Path, final: Path)
    requires Inv(w) && n !in w.pubs && CanLease(w.reg, {stage, final})
    ensures Inv(Grant(w, Publisher(n), {stage, final}).(pubs := w.pubs[n := Publication(stage, final, Begun)]))
  {
    hide AllCounted, AllPinned, Acquired, Bumped, CanLease, Publishing, Flagged;
    var ps, h := {stage, final}, Publisher(n);
    GrantCounted(w, h, ps);
    GrantPinned(w, h, ps);
    GrantFlagged(w, h, ps);
    var pubs := w.pubs[n := Publication(stage, final, Begun)];
    forall p
      ensures Flagged(Acquired(w.reg, ps, LEASE), pubs, p)
    {
      assert Flagged(Acquired(w.reg, ps, LEASE), w.pubs, p);
      BegunFlagged(Acquired(w.reg, ps, LEASE), w.pubs, n, Publication(stage, final, Begun), p);
    }
    BegunPublishing(w.leases[h := ps], w.locks, n, pubs[n]);
    forall m | m in w.pubs
      ensures Publishing(w.leases[h := ps], w.locks, m, w.pubs[m])
    {
      GrantPublishing(w, h, ps, m);
    }
  }

  lemma BegunFlagged(r: Registry, pubs: map<nat, Publication>, n: nat, pub: Publication, p: Path)
    requires Flagged(r, pubs, p) && n !in pubs && !Exclusive(pub.phase)
    ensures Flagged(r, pubs[n := pub], p)
  {
    assert Publishers(pubs[n := pub], p) == Publishers(pubs, p);
  }

  lemma BegunPublishing(leases: map<Holder, set<Path>>, locks: set<Path>, n: nat, p: Publication)
    requires Publisher(n) in leases && leases[Publisher(n)] == {p.stage, p.final} && p.phase == Begun
    ensures Publishing(leases, locks, n, p)
  {
  }

  lemma ReturnCountedAt(w: World, h: Holder, p: Path)
    requires Counted(w.reg, w.leases, w.watches, p) && h in w.leases
    ensures Counted(Dropped(w.reg, w.leases[h], RELEASE), w.leases - {h}, w.watches, p)
  {
    hide Dropped, Leases, Watchers, Adjusted;
    DroppedAt(w.reg, w.leases[h], RELEASE, p);
    LeasesDrop(w.leases, h, p);
    if p in w.reg.uses {
      AdjustedCounts(w.reg.uses[p], RELEASE);
    }
    var before, after := Leases(w.leases, p), Leases(w.leases - {h}, p);
    assert h in before ==> before == after + {h} && |before| == |after| + 1;
    assert h !in before ==> before == after;
  }

  lemma ReturnCounted(w: World, h: Holder)
    requires AllCounted(w.reg, w.leases, w.watches)
    ensures AllCounted(Return(w, h).reg, Return(w, h).leases, w.watches)
  {
    hide Dropped, Counted;
    if h in w.leases {
      DroppedSize(w.reg, w.leases[h], RELEASE);
      forall p
        ensures Counted(Dropped(w.reg, w.leases[h], RELEASE), w.leases - {h}, w.watches, p)
      {
        ReturnCountedAt(w, h, p);
      }
    }
  }

  /** Dropping references leaves every watched entry registered, with its serial and revision. */
  lemma DroppedPinned(r: Registry, ps: set<Path>, d: Delta, watches: map<nat, Candidate>)
    requires AllPinned(r, watches) && d.grants == 0
    requires forall i :: i in watches ==> watches[i].path in Dropped(r, ps, d).uses
    ensures AllPinned(Dropped(r, ps, d), watches)
  {
    hide Dropped;
    var u := Dropped(r, ps, d);
    forall p | p in u.uses
      ensures u.uses[p].revision < REVISIONS
    {
      DroppedAt(r, ps, d, p);
    }
    forall i | i in watches
      ensures Pinned(u, watches[i])
    {
      assert Pinned(r, watches[i]);
      DroppedAt(r, ps, d, watches[i].path);
    }
  }

  lemma WatchedIsRegistered(r: Registry, leases: map<Holder, set<Path>>, watches: map<nat, Candidate>, i: nat)
    requires AllCounted(r, leases, watches) && i in watches
    ensures watches[i].path in r.uses
  {
    assert Counted(r, leases, watches, watches[i].path);
    assert i in Watchers(watches, watches[i].path);
  }

  lemma HeldIsRegistered(r: Registry, leases: map<Holder, set<Path>>, watches: map<nat, Candidate>, h: Holder, p: Path)
    requires Counted(r, leases, watches, p) && h in leases && p in leases[h]
    ensures p in r.uses && h in Leases(leases, p)
  {
  }

  lemma ReturnPinned(w: World, h: Holder)
    requires AllPinned(w.reg, w.watches) && AllCounted(w.reg, w.leases, w.watches)
    ensures AllPinned(Return(w, h).reg, w.watches)
  {
    hide Dropped, AllCounted, AllPinned;
    if h in w.leases {
      ReturnCounted(w, h);
      forall i | i in w.watches
        ensures w.watches[i].path in Dropped(w.reg, w.leases[h], RELEASE).uses
      {
        WatchedIsRegistered(Return(w, h).reg, Return(w, h).leases, w.watches, i);
      }
      DroppedPinned(w.reg, w.leases[h], RELEASE, w.watches);
    }
  }

  /** A holder that is not publishing may leave: it never was the exclusive holder of a stage. */
  lemma ReturnFlagged(w: World, h: Holder)
    requires Inv(w) && h in w.leases && (h.Publisher? ==> !Exclusive(w.pubs[h.n].phase))
    ensures AllFlagged(Return(w, h).reg, w.pubs)
  {
    hide Dropped, AllCounted, AllPinned, Publishers, Leases;
    forall p
      ensures Flagged(Return(w, h).reg, w.pubs, p)
    {
      assert Flagged(w.reg, w.pubs, p);
      DroppedAt(w.reg, w.leases[h], RELEASE, p);
      if p in w.leases[h] {
        StageNotHeld(w, h, p);
      }
    }
  }

  lemma StageNotHeld(w: World, h: Holder, p: Path)
    requires Inv(w) && h in w.leases && (h.Publisher? ==> !Exclusive(w.pubs[h.n].phase)) && p in w.leases[h]
    ensures Publishers(w.pubs, p) == {}
  {
    hide AllCounted, AllPinned, AllFlagged;
    assert h in Leases(w.leases, p);
    assert forall n :: n in Publishers(w.pubs, p) ==> Publishing(w.leases, w.locks, n, w.pubs[n]);
  }

  lemma ReturnPublishing(w: World, h: Holder, n: nat)
    requires AllPublishing(w.leases, w.locks, w.pubs) && h in w.leases && n in w.pubs && h != Publisher(n)
    ensures Publishing(w.leases - {h}, w.locks, n, w.pubs[n])
  {
    hide Leases;
    assert Publishing(w.leases, w.locks, n, w.pubs[n]);
    LeasesDrop(w.leases, h, w.pubs[n].stage);
  }

  lemma ReleaseOk(w: World, n: nat)
    requires Inv(w) && Reader(n) in w.leases
    ensures Inv(Return(w, Reader(n)))
  {
    hide AllCounted, AllPinned, AllFlagged, Dropped, Publishing;
    ReturnCounted(w, Reader(n));
    ReturnPinned(w, Reader(n));
    ReturnFlagged(w, Reader(n));
    forall m | m in w.pubs
      ensures Publishing(w.leases - {Reader(n)}, w.locks, m, w.pubs[m])
    {
      ReturnPublishing(w, Reader(n), m);
    }
  }

  lemma EndOk(w: World, n: nat)
    requires Inv(w) && At(w.pubs, n, Ended)
    ensures Inv(Return(w, Publisher(n)).(pubs := w.pubs - {n}))
  {
    hide AllCounted, AllPinned, Dropped, Publishing, Flagged;
    EndedHolds(w, n);
    ReturnCounted(w, Publisher(n));
    ReturnPinned(w, Publisher(n));
    ReturnFlagged(w, Publisher(n));
    var u := Return(w, Publisher(n)).(pubs := w.pubs - {n});
    forall p
      ensures Flagged(u.reg, u.pubs, p)
    {
      assert Flagged(u.reg, w.pubs, p);
      SameFlag(u.reg, w.pubs, u.pubs, p);
    }
    forall m | m in u.pubs
      ensures Publishing(u.leases, w.locks, m, u.pubs[m])
    {
      ReturnPublishing(w, Publisher(n), m);
    }
  }

  lemma EndedHolds(w: World, n: nat)
    requires Inv(w) && n in w.pubs
    ensures Publisher(n) in w.leases && w.leases[Publisher(n)] == {w.pubs[n].stage, w.pubs[n].final}
  {
    hide AllCounted, AllPinned, AllFlagged;
    assert Publishing(w.leases, w.locks, n, w.pubs[n]);
  }

  lemma SameFlag(r: Registry, before: map<nat, Publication>, after: map<nat, Publication>, p: Path)
    requires Flagged(r, before, p) && Publishers(after, p) == Publishers(before, p)
    ensures Flagged(r, after, p)
  {
  }

  // Watches.

  lemma WatchOk(w: World, i: nat, path: Path)
    requires Inv(w) && Enabled(w, Watch(i, path))
    ensures Inv(Apply(w, Watch(i, path)))
  {
    hide AllCounted, AllPinned, AllFlagged, Acquired, AllPublishing, UseOf;
    if path in w.dirs && CanWatch(w.reg, path) {
      WatchCounted(w, i, path);
      WatchPinned(w, i, path);
      WatchFlagged(w, path);
    }
  }

  lemma WatchCounted(w: World, i: nat, path: Path)
    requires AllCounted(w.reg, w.leases, w.watches) && i !in w.watches && path in w.dirs && CanWatch(w.reg, path)
    ensures var u := Apply(w, Watch(i, path)); AllCounted(u.reg, u.leases, u.watches)
  {
    hide Acquired, Counted, UseOf;
    var u := Apply(w, Watch(i, path));
    AcquiredSize(w.reg, {path}, WATCH);
    assert path in w.reg.uses ==> {path} - w.reg.uses.Keys == {};
    assert path !in w.reg.uses ==> {path} - w.reg.uses.Keys == {path};
    forall p
      ensures Counted(u.reg, u.leases, u.watches, p)
    {
      WatchCountedAt(w, i, path, u.watches[i], p);
    }
  }

  lemma WatchCountedAt(w: World, i: nat, path: Path, c: Candidate, p: Path)
    requires Counted(w.reg, w.leases, w.watches, p) && i !in w.watches && c.path == path
    ensures Counted(Acquired(w.reg, {path}, WATCH), w.leases, w.watches[i := c], p)
  {
    hide Acquired, Leases, Adjusted;
    AcquiredAt(w.reg, {path}, WATCH, p);
    AdjustedCounts(UseOf(w.reg, p), WATCH);
    var before := Watchers(w.watches, p);
    assert Watchers(w.watches[i := c], p) == if p == path then before + {i} else before;
    hide Watchers;
    assert |before + {i}| == |before| + 1;
  }

  lemma WatchPinned(w: World, i: nat, path: Path)
    requires AllPinned(w.reg, w.watches) && i !in w.watches && path in w.dirs && CanWatch(w.reg, path)
    ensures var u := Apply(w, Watch(i, path)); AllPinned(u.reg, u.watches)
  {
    hide Acquired, Adjusted, Pinned, CanWatch;
    var u := Apply(w, Watch(i, path));
    forall p | p in u.reg.uses
      ensures u.reg.uses[p].revision < REVISIONS
    {
      AcquiredAt(w.reg, {path}, WATCH, p);
      Kept(UseOf(w.reg, p), WATCH);
    }
    AcquiredAt(w.reg, {path}, WATCH, path);
    Kept(UseOf(w.reg, path), WATCH);
    NewPinned(u.reg, u.watches[i]);
    forall k | k in w.watches
      ensures Pinned(u.reg, w.watches[k])
    {
      AcquiredAt(w.reg, {path}, WATCH, w.watches[k].path);
      PinnedUse(w.reg, w.watches[k]);
      Kept(UseOf(w.reg, w.watches[k].path), WATCH);
      StillPinned(w.reg, u.reg, w.watches[k]);
    }
  }

  lemma PinnedUse(r: Registry, c: Candidate)
    requires Pinned(r, c)
    ensures c.path in r.uses && r.uses[c.path].revision < REVISIONS
  {
  }

  lemma Kept(u: Use, d: Delta)
    requires d.grants == 0 && u.revision < REVISIONS
    ensures Adjusted(u, d).revision == u.revision && Adjusted(u, d).serial == u.serial
  {
  }

  lemma NewPinned(r: Registry, c: Candidate)
    requires c.path in r.uses && c.serial == r.uses[c.path].serial && c.revision == r.uses[c.path].revision < REVISIONS && c.grants == 0
    ensures Pinned(r, c)
  {
  }

  lemma StillPinned(before: Registry, after: Registry, c: Candidate)
    requires Pinned(before, c) && c.path in after.uses
    requires after.uses[c.path].serial == before.uses[c.path].serial && after.uses[c.path].revision == before.uses[c.path].revision
    ensures Pinned(after, c)
  {
  }

  lemma WatchFlagged(w: World, path: Path)
    requires AllFlagged(w.reg, w.pubs)
    ensures AllFlagged(Acquired(w.reg, {path}, WATCH), w.pubs)
  {
    hide Acquired, Publishers;
    forall p
      ensures Flagged(Acquired(w.reg, {path}, WATCH), w.pubs, p)
    {
      assert Flagged(w.reg, w.pubs, p);
      AcquiredAt(w.reg, {path}, WATCH, p);
    }
  }

  lemma CloseOk(w: World, i: nat)
    requires Inv(w) && i in w.watches
    ensures Inv(Apply(w, Close(i)))
  {
    hide AllCounted, AllPinned, AllFlagged, Dropped, AllPublishing;
    CloseCounted(w, i);
    var u := Apply(w, Close(i));
    forall k | k in u.watches
      ensures u.watches[k].path in u.reg.uses
    {
      WatchedIsRegistered(u.reg, u.leases, u.watches, k);
    }
    FewerPinned(w.reg, w.watches, i);
    DroppedPinned(w.reg, {w.watches[i].path}, CLOSE, u.watches);
    CloseFlagged(w, i);
  }

  lemma FewerPinned(r: Registry, watches: map<nat, Candidate>, i: nat)
    requires AllPinned(r, watches)
    ensures AllPinned(r, watches - {i})
  {
  }

  lemma CloseCounted(w: World, i: nat)
    requires AllCounted(w.reg, w.leases, w.watches) && i in w.watches
    ensures var u := Apply(w, Close(i)); AllCounted(u.reg, u.leases, u.watches)
  {
    hide Dropped, Counted;
    var u := Apply(w, Close(i));
    DroppedSize(w.reg, {w.watches[i].path}, CLOSE);
    forall p
      ensures Counted(u.reg, u.leases, u.watches, p)
    {
      CloseCountedAt(w, i, p);
    }
  }

  lemma CloseCountedAt(w: World, i: nat, p: Path)
    requires Counted(w.reg, w.leases, w.watches, p) && i in w.watches
    ensures Counted(Dropped(w.reg, {w.watches[i].path}, CLOSE), w.leases, w.watches - {i}, p)
  {
    hide Dropped, Leases, Watchers, Adjusted;
    DroppedAt(w.reg, {w.watches[i].path}, CLOSE, p);
    if p in w.reg.uses {
      AdjustedCounts(w.reg.uses[p], CLOSE);
    }
    var before, after := Watchers(w.watches, p), Watchers(w.watches - {i}, p);
    WatchersDrop(w.watches, i, p);
    assert i in before ==> |before| == |after| + 1;
  }

  lemma WatchersDrop(watches: map<nat, Candidate>, i: nat, p: Path)
    requires i in watches
    ensures i in Watchers(watches, p) <==> p == watches[i].path
    ensures Watchers(watches - {i}, p) == Watchers(watches, p) - {i}
  {
  }

  /** Closing a watch cannot forget an entry that is being published: its publisher holds it. */
  lemma CloseFlagged(w: World, i: nat)
    requires Inv(w) && i in w.watches
    ensures AllFlagged(Apply(w, Close(i)).reg, w.pubs)
  {
    hide Dropped, AllCounted, AllPinned, Publishers, Leases, Publishing;
    var u := Apply(w, Close(i));
    CloseCounted(w, i);
    forall p
      ensures Flagged(u.reg, w.pubs, p)
    {
      assert Flagged(w.reg, w.pubs, p);
      DroppedAt(w.reg, {w.watches[i].path}, CLOSE, p);
      if Publishers(w.pubs, p) != {} {
        PublishedIsRegistered(w, u.reg, u.watches, p);
      }
    }
  }

  lemma PublishedIsRegistered(w: World, r: Registry, watches: map<nat, Candidate>, p: Path)
    requires AllPublishing(w.leases, w.locks, w.pubs) && AllCounted(r, w.leases, watches) && Publishers(w.pubs, p) != {}
    ensures p in r.uses
  {
    var n :| n in Publishers(w.pubs, p);
    assert Publishing(w.leases, w.locks, n, w.pubs[n]);
    assert Counted(r, w.leases, watches, p);
    assert Publisher(n) in Leases(w.leases, p);
  }

  // Publication.

  /** Only the phase of one publication and the lock of its final directory change. */
  lemma PhaseOk(w: World, u: World, n: nat, ph: Phase)
    requires Inv(w) && n in w.pubs && Exclusive(w.pubs[n].phase) && Exclusive(ph)
    requires u == w.(pubs := To(w.pubs, n, ph), dirs := u.dirs, locks := u.locks)
    requires u.locks == w.locks || u.locks == w.locks + {w.pubs[n].final} || u.locks == w.locks - {w.pubs[n].final}
    requires HoldsLock(ph) ==>
               if HoldsLock(w.pubs[n].phase) then u.locks == w.locks else w.pubs[n].final !in w.locks && w.pubs[n].final in u.locks
    requires w.pubs[n].final in w.locks - u.locks ==> HoldsLock(w.pubs[n].phase)
    ensures Inv(u)
  {
    hide AllCounted, AllPinned, Flagged, Leases, Publishers;
    forall p
      ensures Flagged(u.reg, u.pubs, p)
    {
      assert Flagged(w.reg, w.pubs, p);
      SamePublishers(w.pubs, n, ph, p);
      SameFlag(w.reg, w.pubs, u.pubs, p);
    }
    assert Publishing(w.leases, w.locks, n, w.pubs[n]);
    forall m | m in u.pubs
      ensures Publishing(u.leases, u.locks, m, u.pubs[m])
    {
      assert Publishing(w.leases, w.locks, m, w.pubs[m]);
    }
  }

  lemma SamePublishers(pubs: map<nat, Publication>, n: nat, ph: Phase, p: Path)
    requires n in pubs && Exclusive(pubs[n].phase) && Exclusive(ph)
    ensures Publishers(To(pubs, n, ph), p) == Publishers(pubs, p)
  {
  }

  lemma MarkOk(w: World, n: nat)
    requires Inv(w) && At(w.pubs, n, Begun)
    ensures Inv(Apply(w, Mark(n)))
  {
    hide AllCounted, AllPinned, Flagged, Leases, Publishers, Publishing;
    var stage, u := w.pubs[n].stage, Apply(w, Mark(n));
    EndedHolds(w, n);
    HeldStage(w, n);
    if RefsOf(w.reg, stage) == 1 {
      FlagKeeps(w, stage, true);
      MarkAlone(w, n);
      forall p
        ensures Flagged(u.reg, u.pubs, p)
      {
        assert Flagged(w.reg, w.pubs, p);
        MarkedFlag(w.reg, w.pubs, n, p);
      }
    } else {
      forall p
        ensures Flagged(u.reg, u.pubs, p)
      {
        assert Flagged(w.reg, w.pubs, p);
        EndedFlag(w.reg, w.pubs, n, p);
      }
    }
    OthersPublishing(w, u.pubs, n);
  }

  lemma HeldStage(w: World, n: nat)
    requires Inv(w) && n in w.pubs
    ensures w.pubs[n].stage in w.reg.uses && Publisher(n) in Leases(w.leases, w.pubs[n].stage)
  {
    hide AllPinned, AllFlagged;
    assert Publishing(w.leases, w.locks, n, w.pubs[n]);
    assert Counted(w.reg, w.leases, w.watches, w.pubs[n].stage);
    HeldIsRegistered(w.reg, w.leases, w.watches, Publisher(n), w.pubs[n].stage);
  }

  lemma FlagKeeps(w: World, p: Path, publishing: bool)
    requires AllCounted(w.reg, w.leases, w.watches) && AllPinned(w.reg, w.watches)
    ensures AllCounted(Flag(w.reg, p, publishing), w.leases, w.watches) && AllPinned(Flag(w.reg, p, publishing), w.watches)
  {
    hide Leases, Watchers;
    var r := Flag(w.reg, p, publishing);
    assert r.uses.Keys == w.reg.uses.Keys;
    assert |r.uses| == |r.uses.Keys| && |w.reg.uses| == |w.reg.uses.Keys|;
    forall q
      ensures Counted(r, w.leases, w.watches, q)
    {
      assert Counted(w.reg, w.leases, w.watches, q);
    }
  }

  /** One reference to a stage, and its publisher holds it: nobody else does. */
  lemma MarkAlone(w: World, n: nat)
    requires Inv(w) && n in w.pubs && RefsOf(w.reg, w.pubs[n].stage) == 1
    ensures Leases(w.leases, w.pubs[n].stage) == {Publisher(n)}
  {
    hide AllPinned, AllFlagged;
    var stage := w.pubs[n].stage;
    HeldStage(w, n);
    assert Counted(w.reg, w.leases, w.watches, stage);
    var held := Leases(w.leases, stage);
    assert |held - {Publisher(n)}| == 0;
    assert held == (held - {Publisher(n)}) + {Publisher(n)};
  }

  lemma MarkedFlag(r: Registry, pubs: map<nat, Publication>, n: nat, p: Path)
    requires Flagged(r, pubs, p) && n in pubs && pubs[n].stage in r.uses
    ensures Flagged(Flag(r, pubs[n].stage, true), To(pubs, n, Marked), p)
  {
    var after := To(pubs, n, Marked);
    if p == pubs[n].stage {
      assert n in Publishers(after, p);
    } else {
      assert Publishers(after, p) == Publishers(pubs, p);
    }
  }

  lemma EndedFlag(r: Registry, pubs: map<nat, Publication>, n: nat, p: Path)
    requires Flagged(r, pubs, p) && n in pubs && !Exclusive(pubs[n].phase)
    ensures Flagged(r, To(pubs, n, Ended), p)
  {
    assert Publishers(To(pubs, n, Ended), p) == Publishers(pubs, p);
  }

  lemma OthersPublishing(w: World, pubs: map<nat, Publication>, n: nat)
    requires AllPublishing(w.leases, w.locks, w.pubs) && n in w.pubs && n in pubs && pubs == To(w.pubs, n, pubs[n].phase)
    requires Exclusive(pubs[n].phase) ==> Leases(w.leases, pubs[n].stage) == {Publisher(n)}
    requires !HoldsLock(pubs[n].phase)
    ensures AllPublishing(w.leases, w.locks, pubs)
  {
    hide Leases;
    forall m | m in pubs
      ensures Publishing(w.leases, w.locks, m, pubs[m])
    {
      assert Publishing(w.leases, w.locks, m, w.pubs[m]);
    }
  }

  lemma UnmarkOk(w: World, n: nat)
    requires Inv(w) && At(w.pubs, n, Unlocked)
    ensures Inv(Apply(w, Unmark(n)))
  {
    hide AllCounted, AllPinned, Flagged, Leases, Publishers, Publishing;
    var u := Apply(w, Unmark(n));
    FlagKeeps(w, w.pubs[n].stage, false);
    HeldStage(w, n);
    SolePublisher(w, n);
    forall p
      ensures Flagged(u.reg, u.pubs, p)
    {
      assert Flagged(w.reg, w.pubs, p);
      UnmarkedFlag(w.reg, w.pubs, n, p);
    }
    OthersPublishing(w, u.pubs, n);
  }

  lemma SolePublisher(w: World, n: nat)
    requires Inv(w) && n in w.pubs && Exclusive(w.pubs[n].phase)
    ensures Publishers(w.pubs, w.pubs[n].stage) == {n}
  {
    hide AllCounted, AllPinned, AllFlagged, Leases;
    assert Publishing(w.leases, w.locks, n, w.pubs[n]);
    assert forall m :: m in Publishers(w.pubs, w.pubs[n].stage) ==> Publishing(w.leases, w.locks, m, w.pubs[m]);
  }

  lemma UnmarkedFlag(r: Registry, pubs: map<nat, Publication>, n: nat, p: Path)
    requires Flagged(r, pubs, p) && n in pubs && Publishers(pubs, pubs[n].stage) == {n}
    ensures Flagged(Flag(r, pubs[n].stage, false), To(pubs, n, Ended), p)
  {
    var after := To(pubs, n, Ended);
    assert Publishers(after, p) == Publishers(pubs, p) - {n};
  }

  lemma OutsideOk(w: World, dirs: map<Path, Dir>, locks: set<Path>)
    requires Inv(w) && Enabled(w, Outside(dirs, locks))
    ensures Inv(w.(dirs := dirs, locks := locks))
  {
    hide AllCounted, AllPinned, AllFlagged, Leases;
    forall n | n in w.pubs
      ensures Publishing(w.leases, locks, n, w.pubs[n])
    {
      assert Publishing(w.leases, w.locks, n, w.pubs[n]);
    }
  }

  /** Every step keeps the registry exact, the watches pinned and the publications exclusive. */
  lemma StepInv(w: World, e: Event)
    requires Inv(w) && Enabled(w, e)
    ensures Inv(Apply(w, e))
  {
    hide Inv, Collects, CanLease;
    match e
    case Lease(n, paths) =>
      if CanLease(w.reg, paths) { LeaseOk(w, n, paths); }
    case Release(n) => ReleaseOk(w, n);
    case Watch(i, path) => WatchOk(w, i, path);
    case Close(i) => CloseOk(w, i);
    case Remove(i, keep, movable) => DirsOk(w, Apply(w, e));
    case Begin(n, stage, final) =>
      if CanLease(w.reg, {stage, final}) { BeginOk(w, n, stage, final); }
    case Mark(n) => MarkOk(w, n);
    case Lock(n) => PhaseOk(w, Apply(w, e), n, Apply(w, e).pubs[n].phase);
    case Move(n, movable) => PhaseOk(w, Apply(w, e), n, Apply(w, e).pubs[n].phase);
    case Compare(n, same) => PhaseOk(w, Apply(w, e), n, Moved);
    case Unlock(n) => PhaseOk(w, Apply(w, e), n, Unlocked);
    case Unmark(n) => UnmarkOk(w, n);
    case End(n) => EndOk(w, n);
    case Outside(dirs, locks) => OutsideOk(w, dirs, locks);
  }

  lemma DirsOk(w: World, u: World)
    requires Inv(w) && u == w.(dirs := u.dirs)
    ensures Inv(u)
  {
    hide AllCounted, AllPinned, AllFlagged, AllPublishing;
  }

  ghost predicate Feasible(w: World, events: seq<Event>)
    decreases |events|
  {
    events == [] || (Enabled(w, events[0]) && Feasible(Apply(w, events[0]), events[1..]))
  }

  ghost function After(w: World, events: seq<Event>): World
    requires Feasible(w, events)
    decreases |events|
  {
    if events == [] then w else After(Apply(w, events[0]), events[1..])
  }

  lemma {:induction false} RunInv(w: World, events: seq<Event>)
    requires Inv(w) && Feasible(w, events)
    ensures Inv(After(w, events))
    decreases |events|
  {
    hide Inv, Enabled, Apply;
    if events != [] {
      StepInv(w, events[0]);
      RunInv(Apply(w, events[0]), events[1..]);
    }
  }

  /** Whether a step grants a lease on a path. */
  ghost predicate Grants(w: World, e: Event, p: Path) {
    match e
    case Lease(n, paths) => p in paths && CanLease(w.reg, paths)
    case Begin(n, stage, final) => p in {stage, final} && CanLease(w.reg, {stage, final})
    case _ => false
  }

  /** How many leases on a path a run grants. */
  ghost function Granted(w: World, events: seq<Event>, p: Path): nat
    requires Feasible(w, events)
    decreases |events|
  {
    if events == [] then 0
    else (if Grants(w, events[0], p) then 1 else 0) + Granted(Apply(w, events[0]), events[1..], p)
  }

  lemma StepGrants(w: World, e: Event, i: nat)
    requires Enabled(w, e) && i in w.watches && e != Close(i)
    ensures var u := Apply(w, e);
            && i in u.watches
            && u.watches[i] == w.watches[i].(grants := w.watches[i].grants + if Grants(w, e, w.watches[i].path) then 1 else 0)
  {
    hide CanLease, Acquired, Dropped, CanWatch, Collects, Flag;
  }

  lemma {:induction false} RunGrants(w: World, events: seq<Event>, i: nat)
    requires Feasible(w, events) && i in w.watches && Close(i) !in events
    ensures var u := After(w, events);
            && i in u.watches
            && u.watches[i] == w.watches[i].(grants := w.watches[i].grants + Granted(w, events, w.watches[i].path))
    decreases |events|
  {
    hide Enabled, Apply, Grants;
    if events != [] {
      assert events[0] in events;
      StepGrants(w, events[0], i);
      RunGrants(Apply(w, events[0]), events[1..], i);
    }
  }

  /**
   Garbage collection over whole runs. A directory watched at some point is moved at the
   end of any run exactly when the snapshot does not keep it, nobody holds a lease on it
   now, the number of leases granted on it since the watch is zero (modulo the width of
   the revision), and the directory is the same unmodified one with no lock beside it.
   */
  lemma CollectsExactly(w: World, i: nat, path: Path, events: seq<Event>, keep: bool)
    requires Inv(w) && Enabled(w, Watch(i, path)) && path in w.dirs && CanWatch(w.reg, path)
    requires Feasible(Apply(w, Watch(i, path)), events) && Close(i) !in events
    ensures var start := Apply(w, Watch(i, path));
            var u := After(start, events);
            && Enabled(u, Remove(i, keep, true))
            && (Collects(u, i, keep) <==>
                  && !keep && Leases(u.leases, path) == {} && Granted(start, events, path) % REVISIONS == 0
                  && path in u.dirs && u.dirs[path] == w.dirs[path] && path !in u.locks)
            && Apply(u, Remove(i, keep, true)).dirs == if Collects(u, i, keep) then u.dirs - {path} else u.dirs
  {
    hide Inv, Feasible, After, Granted, Leases, CanWatch, Acquired;
    var start := Apply(w, Watch(i, path));
    StepInv(w, Watch(i, path));
    RunInv(start, events);
    RunGrants(start, events, i);
    CollectsNow(After(start, events), i, keep);
  }

  lemma CollectsNow(w: World, i: nat, keep: bool)
    requires Inv(w) && i in w.watches
    ensures var c := w.watches[i];
            Collects(w, i, keep) <==>
              && !keep && Leases(w.leases, c.path) == {} && c.grants % REVISIONS == 0
              && c.path in w.dirs && w.dirs[c.path] == c.info && c.path !in w.locks
  {
    hide AllFlagged, AllPublishing, Leases, Watchers;
    var c := w.watches[i];
    assert Pinned(w.reg, c);
    assert Counted(w.reg, w.leases, w.watches, c.path);
    Unchanged(c.revision, c.grants);
  }

  lemma Unchanged(revision: nat, grants: nat)
    requires revision < REVISIONS
    ensures (revision + grants) % REVISIONS == revision <==> grants % REVISIONS == 0
  {
  }

  /**
   A lease that was granted before the watch and is returned after it does not protect
   the directory, although the directory was leased while it was watched.
   */
  lemma EarlierLeaseDoesNotProtect(w: World, n: nat, i: nat, path: Path)
    requires Inv(w) && Reader(n) in w.leases && Leases(w.leases, path) == {Reader(n)}
    requires i !in w.watches && path in w.dirs && path !in w.locks
    ensures var watched := Apply(w, Watch(i, path));
            && Leases(watched.leases, path) == {Reader(n)}
            && Feasible(watched, [Release(n)])
            && var u := After(watched, [Release(n)]);
            && Enabled(u, Remove(i, false, true)) && path !in Apply(u, Remove(i, false, true)).dirs
  {
    hide Inv, Acquired, Dropped, Collects;
    var watched := Apply(w, Watch(i, path));
    HeldCanWatch(w, n, path);
    var events := [Release(n)];
    assert events[1..] == [];
    var u := Apply(watched, Release(n));
    assert Feasible(u, []) && After(u, []) == u && Granted(u, [], path) == 0;
    assert Feasible(watched, events) && After(watched, events) == u;
    assert Granted(watched, events, path) == 0;
    LeasesDrop(w.leases, Reader(n), path);
    CollectsExactly(w, i, path, events, false);
  }

  lemma HeldCanWatch(w: World, n: nat, path: Path)
    requires Inv(w) && Reader(n) in Leases(w.leases, path)
    ensures CanWatch(w.reg, path)
  {
    hide AllPinned, AllFlagged, AllPublishing;
    assert Counted(w.reg, w.leases, w.watches, path);
  }

  /** Once a publisher has marked its stage, nobody else holds it or can get it until it is unmarked. */
  lemma PublicationIsExclusive(w: World, n: nat, paths: set<Path>)
    requires Inv(w) && n in w.pubs && Exclusive(w.pubs[n].phase)
    ensures Leases(w.leases, w.pubs[n].stage) == {Publisher(n)} && Publishers(w.pubs, w.pubs[n].stage) == {n}
    ensures w.pubs[n].stage in paths ==> !CanLease(w.reg, paths)
  {
    hide AllCounted, AllPinned, Leases, Publishers;
    assert Publishing(w.leases, w.locks, n, w.pubs[n]);
    assert Flagged(w.reg, w.pubs, w.pubs[n].stage);
    SolePublisher(w, n);
    HeldStage(w, n);
  }

  /** Garbage collection never moves a stage or a destination of a publication in progress. */
  lemma PublicationIsNotCollected(w: World, n: nat, i: nat, keep: bool)
    requires Inv(w) && n in w.pubs && i in w.watches && w.watches[i].path in {w.pubs[n].stage, w.pubs[n].final}
    ensures !Collects(w, i, keep)
  {
    hide AllCounted, AllPinned, AllFlagged, Collects;
    CollectsNow(w, i, keep);
    EndedHolds(w, n);
    assert Publisher(n) in Leases(w.leases, w.watches[i].path);
  }

  // Serials identify entries.

  /** How one step may change the entry of a path: keep it, forget it, or make the next one. */
  ghost predicate Succeeds(r: Registry, n: Registry, p: Path) {
    && Made(r, p) <= Made(n, p)
    && (p in n.uses ==> n.uses[p].serial < Made(n, p) && n.uses[p].serial == if p in r.uses then r.uses[p].serial else Made(r, p))
  }

  lemma StepSerials(w: World, e: Event, p: Path)
    requires Serials(w.reg) && Enabled(w, e)
    ensures Succeeds(w.reg, Apply(w, e).reg, p)
  {
    hide Acquired, Dropped, CanLease, CanWatch, Collects, Bumped;
    match e
    case Lease(n, paths) => AcquiredSerials(w.reg, paths, LEASE, p);
    case Begin(n, stage, final) => AcquiredSerials(w.reg, {stage, final}, LEASE, p);
    case Watch(i, path) => AcquiredSerials(w.reg, {path}, WATCH, p);
    case Release(n) => DroppedSerials(w.reg, w.leases[Reader(n)], RELEASE, p);
    case End(n) =>
      if Publisher(n) in w.leases {
        DroppedSerials(w.reg, w.leases[Publisher(n)], RELEASE, p);
      }
    case Close(i) => DroppedSerials(w.reg, {w.watches[i].path}, CLOSE, p);
    case _ =>
  }

  lemma {:induction false} RunSerials(w: World, events: seq<Event>, p: Path)
    requires Serials(w.reg) && Feasible(w, events)
    ensures var u := After(w, events);
            && Serials(u.reg) && Made(w.reg, p) <= Made(u.reg, p)
            && (p in u.reg.uses ==> u.reg.uses[p].serial >= if p in w.reg.uses then w.reg.uses[p].serial else Made(w.reg, p))
    decreases |events|
  {
    hide Enabled, Apply, Made;
    if events != [] {
      var u := Apply(w, events[0]);
      forall q
        ensures Succeeds(w.reg, u.reg, q)
      {
        StepSerials(w, events[0], q);
      }
      assert Succeeds(w.reg, u.reg, p);
      AllSucceed(w.reg, u.reg);
      RunSerials(u, events[1..], p);
    }
  }

  lemma AllSucceed(r: Registry, n: Registry)
    requires Serials(r) && forall q :: Succeeds(r, n, q)
    ensures Serials(n)
  {
    forall q | q in n.uses
      ensures n.uses[q].serial < Made(n, q)
    {
      assert Succeeds(r, n, q);
    }
  }

  /** An entry that is forgotten and made again is another entry: no watch can take one for the other. */
  lemma RemadeIsAnother(w: World, toGone: seq<Event>, toBack: seq<Event>, p: Path)
    requires Serials(w.reg) && Feasible(w, toGone) && p in w.reg.uses && p !in After(w, toGone).reg.uses
    requires Feasible(After(w, toGone), toBack) && p in After(After(w, toGone), toBack).reg.uses
    ensures After(After(w, toGone), toBack).reg.uses[p].serial > w.reg.uses[p].serial
  {
    hide Feasible, After;
    RunSerials(w, toGone, p);
    RunSerials(After(w, toGone), toBack, p);
  }

  // What is granted and what is given back.

  /** The paths that somebody holds or watches. */
  ghost function Known(w: World): set<Path> {
    (set h, p | h in w.leases && p in w.leases[h] :: p) + (set i | i in w.watches :: w.watches[i].path)
  }

  lemma KnownIsRegistered(w: World)
    requires Inv(w)
    ensures w.reg.uses.Keys == Known(w) && |w.reg.uses| == |Known(w)|
  {
    hide AllPinned, AllFlagged, AllPublishing;
    forall p
      ensures p in w.reg.uses <==> p in Known(w)
    {
      assert Counted(w.reg, w.leases, w.watches, p);
      if Leases(w.leases, p) != {} {
        var h :| h in Leases(w.leases, p);
      }
      if Watchers(w.watches, p) != {} {
        var i :| i in Watchers(w.watches, p);
      }
      if p in Known(w) {
        KnownBy(w, p);
      }
    }
    assert w.reg.uses.Keys == Known(w);
    assert |w.reg.uses| == |w.reg.uses.Keys|;
  }

  lemma KnownBy(w: World, p: Path)
    requires p in Known(w)
    ensures Leases(w.leases, p) != {} || Watchers(w.watches, p) != {}
  {
    if h :| h in w.leases && p in w.leases[h] {
      assert h in Leases(w.leases, p);
    } else {
      var i :| i in w.watches && w.watches[i].path == p;
      assert i in Watchers(w.watches, p);
    }
  }

  /** A lease is granted exactly when none of its paths is being published and the known paths stay at most 4096; otherwise nothing changes. */
  lemma LeaseOutcome(w: World, n: nat, ps: set<Path>)
    requires Inv(w) && Reader(n) !in w.leases
    ensures var u, granted := Apply(w, Lease(n, ps)), (forall p :: p in ps ==> Publishers(w.pubs, p) == {}) && |Known(w) + ps| <= 4096;
            if granted then Reader(n) in u.leases && u.leases[Reader(n)] == ps && u.dirs == w.dirs && u.pubs == w.pubs else u == w
  {
    hide AllCounted, AllPinned, AllPublishing, Publishers, Acquired, Known, Bumped;
    KnownIsRegistered(w);
    assert forall p :: p in ps ==> Flagged(w.reg, w.pubs, p);
    var keys := w.reg.uses.Keys;
    assert keys + ps == keys + (ps - keys);
  }

  /** A directory can be watched exactly if its path is known or fewer than 4096 are. */
  lemma WatchOutcome(w: World, i: nat, path: Path)
    requires Inv(w) && i !in w.watches
    ensures var u := Apply(w, Watch(i, path));
            if path in w.dirs && (path in Known(w) || |Known(w)| < 4096) then
              i in u.watches && u.watches[i].path == path && u.watches[i].info == w.dirs[path] && u.leases == w.leases
            else u == w
  {
    hide AllPinned, AllFlagged, AllPublishing, Acquired, Known, Counted;
    KnownIsRegistered(w);
  }

  lemma Steps(w: World, a: Event, b: Event, c: Event)
    requires Enabled(w, a) && Enabled(Apply(w, a), b) && Enabled(Apply(Apply(w, a), b), c)
    ensures Feasible(w, [a, b, c]) && After(w, [a, b, c]) == Apply(Apply(Apply(w, a), b), c)
  {
    hide Enabled, Apply;
    var w1 := Apply(w, a);
    var w2 := Apply(w1, b);
    var w3 := Apply(w2, c);
    assert [c][1..] == [] && [b, c][1..] == [c] && [a, b, c][1..] == [b, c];
    assert Feasible(w3, []) && After(w3, []) == w3;
    assert Feasible(w2, [c]) && After(w2, [c]) == w3;
    assert Feasible(w1, [b, c]) && After(w1, [b, c]) == w3;
  }

  /** A publication gives back its lock, its mark and its leases. */
  lemma PublicationGivesBack(w: World, n: nat)
    requires Inv(w) && At(w.pubs, n, Moved)
    ensures Feasible(w, [Unlock(n), Unmark(n), End(n)])
    ensures var u, p := After(w, [Unlock(n), Unmark(n), End(n)]), w.pubs[n];
            && u.locks == w.locks - {p.final} && n !in u.pubs && Publisher(n) !in u.leases && u.dirs == w.dirs
            && Publishers(u.pubs, p.stage) == {} && Inv(u)
  {
    hide AllCounted, AllPinned, AllFlagged, AllPublishing, Flag, Dropped, Publishers;
    var w1 := Apply(w, Unlock(n));
    var w2 := Apply(w1, Unmark(n));
    Steps(w, Unlock(n), Unmark(n), End(n));
    StepInv(w, Unlock(n));
    StepInv(w1, Unmark(n));
    StepInv(w2, End(n));
    EndsExclusive(w, n);
    assert Apply(w2, End(n)).pubs == w.pubs - {n};
  }

  lemma EndsExclusive(w: World, n: nat)
    requires Inv(w) && n in w.pubs && Exclusive(w.pubs[n].phase)
    ensures Publishers(w.pubs - {n}, w.pubs[n].stage) == {}
  {
    hide Inv;
    PublicationIsExclusive(w, n, {});
    var stage := w.pubs[n].stage;
    assert Publishers(w.pubs - {n}, stage) == Publishers(w.pubs, stage) - {n};
  }

  /** A publication that finds the lock taken leaves it where it is. */
  lemma OtherLockStays(w: World, n: nat)
    requires Inv(w) && At(w.pubs, n, Marked) && w.pubs[n].final in w.locks
    ensures Feasible(w, [Lock(n), Unmark(n), End(n)])
    ensures var u := After(w, [Lock(n), Unmark(n), End(n)]); u.locks == w.locks && u.dirs == w.dirs && n !in u.pubs && Publisher(n) !in u.leases
  {
    hide AllCounted, AllPinned, AllFlagged, AllPublishing, Flag, Dropped;
    Steps(w, Lock(n), Unmark(n), End(n));
  }
}
