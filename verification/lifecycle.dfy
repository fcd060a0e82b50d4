/**
 The in-memory registry of generation directories: references held by readers and
 uploads, watches held by garbage collection, and the exclusive publishing flag.
 An entry is made when a path is first used and forgotten when it is idle. A watch
 refers to the entry and not to the path, so every entry carries its serial number
 among the entries ever made for its path.
 */
module Lifecycle {

  datatype Path = Path(text: string)

  datatype Use = Use(serial: nat, refs: int, watchers: int, revision: nat, publishing: bool)

  datatype Registry = Registry(uses: map<Path, Use>, made: map<Path, nat>)

  const MAX_REFERENCES := 4096

  /** Revisions are 64-bit and wrap. */
  const REVISIONS: nat := 0x1_0000_0000_0000_0000

  datatype Delta = Delta(refs: int, watchers: int, grants: nat)

  const LEASE := Delta(1, 0, 1)
  const RELEASE := Delta(-1, 0, 0)
  const WATCH := Delta(0, 1, 0)
  const CLOSE := Delta(0, -1, 0)

  function Adjusted(u: Use, d: Delta): Use {
    Use(u.serial, u.refs + d.refs, u.watchers + d.watchers, (u.revision + d.grants) % REVISIONS, u.publishing)
  }

  function Made(r: Registry, p: Path): nat {
    if p in r.made then r.made[p] else 0
  }

  /** The entry of a path, or the one that would be made for it. */
  function UseOf(r: Registry, p: Path): Use {
    if p in r.uses then r.uses[p] else Use(Made(r, p), 0, 0, 0, false)
  }

  predicate Idle(u: Use) {
    u.refs == 0 && u.watchers == 0
  }

  /** Makes every missing entry of `ps` and adjusts all of them. */
  function Acquired(r: Registry, ps: set<Path>, d: Delta): Registry {
    Registry(AcquiredUses(r, ps, d), AcquiredMade(r, ps))
  }

  function AcquiredUses(r: Registry, ps: set<Path>, d: Delta): map<Path, Use> {
    map p | p in r.uses.Keys + ps :: if p in ps then Adjusted(UseOf(r, p), d) else UseOf(r, p)
  }

  function AcquiredMade(r: Registry, ps: set<Path>): map<Path, nat> {
    map p | p in r.made.Keys + (ps - r.uses.Keys) :: if p in ps - r.uses.Keys then Made(r, p) + 1 else Made(r, p)
  }

  /** Adjusts the entries of `ps` and forgets the ones that are idle afterwards. */
  function Dropped(r: Registry, ps: set<Path>, d: Delta): Registry {
    r.(uses := map p | p in r.uses && !(p in ps && Idle(Adjusted(r.uses[p], d)))
                :: if p in ps then Adjusted(r.uses[p], d) else r.uses[p])
  }

  function SetPublishing(r: Registry, p: Path, publishing: bool): Registry
    requires p in r.uses
  {
    r.(uses := r.uses[p := r.uses[p].(publishing := publishing)])
  }

  predicate Free(r: Registry, ps: set<Path>) {
    forall p :: p in ps && p in r.uses ==> !r.uses[p].publishing
  }

  predicate CanLease(r: Registry, ps: set<Path>) {
    Free(r, ps) && |r.uses| + |ps - r.uses.Keys| <= MAX_REFERENCES
  }

  predicate CanWatch(r: Registry, p: Path) {
    p in r.uses || |r.uses| != MAX_REFERENCES
  }

  class GenerationLifecycle {
    var uses: map<Path, Use>
    var made: map<Path, nat>
    const absolute: string -> Path

    ghost function Value(): Registry
      reads this
    {
      Registry(uses, made)
    }

    constructor (absolute: string -> Path)
      ensures Value() == Registry(map[], map[]) && this.absolute == absolute
    {
      this.absolute := absolute;
      uses, made := map[], map[];
    }

    /** The distinct absolute paths of a request; none if one of them is empty. */
    method Unique(paths: seq<string>) returns (ok: bool, unique: set<Path>)
      ensures ok <==> "" !in paths
      ensures ok ==> unique == set s | s in paths :: absolute(s)
    {
      unique := {};
      for i := 0 to |paths|
        invariant "" !in paths[..i]
        invariant unique == set s | s in paths[..i] :: absolute(s)
      {
        if paths[i] == "" {
          return false, {};
        }
        assert paths[..i + 1] == paths[..i] + [paths[i]];
        unique := unique + {absolute(paths[i])};
      }
      assert paths[..|paths|] == paths;
      ok := true;
    }

    method Missing(unique: set<Path>) returns (free: bool, missing: nat)
      ensures free <==> Free(Value(), unique)
      ensures free ==> missing == |unique - uses.Keys|
    {
      missing := 0;
      var todo := unique;
      while todo != {}
        invariant todo <= unique && missing == |(unique - todo) - uses.Keys|
        invariant Free(Value(), unique - todo)
        decreases todo
      {
        var p :| p in todo;
        if p in uses && uses[p].publishing {
          return false, 0;
        }
        TakeOne(unique, todo, p, uses.Keys);
        todo := todo - {p};
        if p !in uses {
          missing := missing + 1;
        }
      }
      assert unique - todo == unique;
      free := true;
    }

    /** All paths or none: a refused lease changes nothing. */
    method LeaseGenerationPaths(paths: seq<string>) returns (ok: bool, unique: set<Path>)
      modifies this
      ensures ok <==> "" !in paths && CanLease(old(Value()), set s | s in paths :: absolute(s))
      ensures ok ==> unique == set s | s in paths :: absolute(s)
      ensures Value() == if ok then Acquired(old(Value()), unique, LEASE) else old(Value())
    {
      ok, unique := Unique(paths);
      if !ok {
        return;
      }
      var free, missing := Missing(unique);
      if !free || |uses| + missing > MAX_REFERENCES {
        return false, {};
      }
      AcquireAll(unique);
    }

    method AcquireAll(unique: set<Path>)
      modifies this
      ensures Value() == Acquired(old(Value()), unique, LEASE)
    {
      hide Acquired;
      AcquiredNone(Value(), LEASE);
      var todo := unique;
      assert unique - todo == {};
      while todo != {}
        invariant todo <= unique && Value() == Acquired(old(Value()), unique - todo, LEASE)
        decreases todo
      {
        var p :| p in todo;
        AcquiredOne(old(Value()), unique - todo, p, LEASE);
        TakeOne(unique, todo, p, {});
        Acquire(p, LEASE);
        todo := todo - {p};
      }
      assert unique - todo == unique;
    }

    /** Makes the entry of a path if it is missing and adjusts it. */
    method Acquire(p: Path, d: Delta)
      modifies this
      ensures Value() == Acquired(old(Value()), {p}, d)
    {
      hide Adjusted;
      if p !in uses {
        var serial := if p in made then made[p] else 0;
        uses, made := uses[p := Use(serial, 0, 0, 0, false)], made[p := serial + 1];
      }
      uses := uses[p := Adjusted(uses[p], d)];
    }

    method ReleaseGenerationPaths(unique: set<Path>)
      requires unique <= uses.Keys
      modifies this`uses
      ensures Value() == Dropped(old(Value()), unique, RELEASE)
    {
      hide Dropped;
      DroppedNone(Value(), RELEASE);
      var todo := unique;
      assert unique - todo == {};
      while todo != {}
        invariant todo <= unique && todo <= uses.Keys
        invariant Value() == Dropped(old(Value()), unique - todo, RELEASE)
        decreases todo
      {
        var p :| p in todo;
        DroppedOne(old(Value()), unique - todo, p, RELEASE);
        DroppedKeeps(Value(), p, RELEASE);
        TakeOne(unique, todo, p, {});
        Drop(p, RELEASE);
        todo := todo - {p};
      }
      assert unique - todo == unique;
    }

    /** Adjusts an entry and forgets it if it is idle. */
    method Drop(p: Path, d: Delta)
      requires p in uses
      modifies this`uses
      ensures Value() == Dropped(old(Value()), {p}, d)
    {
      hide Adjusted;
      uses := uses[p := Adjusted(uses[p], d)];
      if uses[p].refs == 0 && uses[p].watchers == 0 {
        uses := uses - {p};
      }
    }

    method WatchGeneration(p: Path, directory: bool) returns (ok: bool, use: Use)
      modifies this
      ensures ok <==> directory && CanWatch(old(Value()), p)
      ensures Value() == if ok then Acquired(old(Value()), {p}, WATCH) else old(Value())
      ensures ok ==> p in uses && use == uses[p]
    {
      if !directory || (p !in uses && |uses| == MAX_REFERENCES) {
        return false, Use(0, 0, 0, 0, false);
      }
      Acquire(p, WATCH);
      ok, use := true, uses[p];
    }

    /** The publisher of a stage takes it exclusively if nobody else holds it. */
    method MarkPublishing(stage: Path) returns (ok: bool)
      requires stage in uses
      modifies this`uses
      ensures ok <==> old(uses)[stage].refs == 1
      ensures Value() == if ok then SetPublishing(old(Value()), stage, true) else old(Value())
    {
      if uses[stage].refs != 1 {
        return false;
      }
      uses := uses[stage := uses[stage].(publishing := true)];
      ok := true;
    }
  }

  lemma TakeOne(unique: set<Path>, todo: set<Path>, p: Path, known: set<Path>)
    requires p in todo && todo <= unique
    ensures |(unique - (todo - {p})) - known| == |(unique - todo) - known| + if p in known then 0 else 1
    ensures unique - (todo - {p}) == (unique - todo) + {p}
  {
    var seen := unique - todo;
    assert unique - (todo - {p}) == seen + {p};
    if p in known {
      assert (seen + {p}) - known == seen - known;
    } else {
      assert (seen + {p}) - known == (seen - known) + {p};
    }
  }

  lemma AcquiredNone(r: Registry, d: Delta)
    ensures Acquired(r, {}, d) == r
  {
  }

  /** Acquiring path by path, in any order, is acquiring all of them. */
  lemma AcquiredOne(r: Registry, done: set<Path>, p: Path, d: Delta)
    requires p !in done
    ensures Acquired(r, done + {p}, d) == Acquired(Acquired(r, done, d), {p}, d)
  {
    hide AcquiredUses, AcquiredMade;
    UsesOne(r, Acquired(r, done, d), done, p, d);
    AcquiredKeys(r, done, d);
    MadeOne(r, Acquired(r, done, d), done, p);
  }

  lemma AcquiredKeys(r: Registry, ps: set<Path>, d: Delta)
    ensures Acquired(r, ps, d).uses.Keys == r.uses.Keys + ps
  {
    hide AcquiredMade, Adjusted;
  }

  lemma UsesOne(r: Registry, n: Registry, done: set<Path>, p: Path, d: Delta)
    requires p !in done && n == Acquired(r, done, d)
    ensures AcquiredUses(r, done + {p}, d) == AcquiredUses(n, {p}, d)
  {
    hide Adjusted, AcquiredMade;
    assert UseOf(n, p) == UseOf(r, p) by {
      SameMade(r, n, done, p, d);
    }
    assert n.uses.Keys == r.uses.Keys + done;
    assert n.uses.Keys + {p} == r.uses.Keys + (done + {p});
  }

  lemma SameMade(r: Registry, n: Registry, done: set<Path>, p: Path, d: Delta)
    requires p !in done && n == Acquired(r, done, d)
    ensures Made(n, p) == Made(r, p)
  {
    hide AcquiredUses;
  }

  lemma MadeOne(r: Registry, n: Registry, done: set<Path>, p: Path)
    requires p !in done && n.uses.Keys == r.uses.Keys + done && n.made == AcquiredMade(r, done)
    ensures AcquiredMade(r, done + {p}) == AcquiredMade(n, {p})
  {
    assert n.made.Keys == r.made.Keys + (done - r.uses.Keys);
    assert n.made.Keys + ({p} - n.uses.Keys) == r.made.Keys + ((done + {p}) - r.uses.Keys);
  }

  lemma DroppedNone(r: Registry, d: Delta)
    ensures Dropped(r, {}, d) == r
  {
  }

  lemma DroppedOne(r: Registry, done: set<Path>, p: Path, d: Delta)
    requires p !in done
    ensures Dropped(r, done + {p}, d) == Dropped(Dropped(r, done, d), {p}, d)
  {
    hide Adjusted;
    assert Dropped(r, done + {p}, d).uses == Dropped(Dropped(r, done, d), {p}, d).uses;
  }

  lemma DroppedKeeps(r: Registry, p: Path, d: Delta)
    ensures r.uses.Keys - {p} <= Dropped(r, {p}, d).uses.Keys
  {
    hide Adjusted;
  }

  /** Every entry is older than the next one of its path. */
  ghost predicate Serials(r: Registry) {
    forall p :: p in r.uses ==> r.uses[p].serial < Made(r, p)
  }

  /** A new entry takes the next serial of its path; an existing one keeps its own. */
  lemma AcquiredSerials(r: Registry, ps: set<Path>, d: Delta, p: Path)
    requires Serials(r)
    ensures var n := Acquired(r, ps, d);
            && Made(r, p) <= Made(n, p) && (p in n.uses ==> n.uses[p].serial < Made(n, p))
            && (p in r.uses ==> p in n.uses && n.uses[p].serial == r.uses[p].serial)
            && (p in n.uses && p !in r.uses ==> n.uses[p].serial == Made(r, p))
  {
    AcquiredKeys(r, ps, d);
  }

  lemma DroppedSerials(r: Registry, ps: set<Path>, d: Delta, p: Path)
    requires Serials(r)
    ensures var n := Dropped(r, ps, d);
            && Made(n, p) == Made(r, p) && (p in n.uses ==> p in r.uses && n.uses[p].serial == r.uses[p].serial)
  {
  }
}
