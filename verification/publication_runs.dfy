/**
 Runs of generation publication over directory contents. Locking, listing either side,
 comparing one entry and discarding the stage are separate steps, interleaved with
 readers, artifact links, other publishers, garbage collection and other processes.
 Every step is also a step of the lifecycle, whose registry decides who holds a path.
 */
module PublicationRuns {
  import opened Wrappers
  import opened Lifecycle
  import L = LifecycleRuns
  import P = Publication

  type Entries = map<P.Name, P.Node>

  /**
   How files are compared, which paths are private staging directories, and which names are
   only ever given to temporary files: those hold a random part that no artifact name has.
   */
  datatype Env = Env(digest: seq<bv8> -> P.Digest, staging: Path -> bool, temporary: P.Name -> bool)

  datatype Step =
    | Waiting
    | ToList
    | StageSide(todo: set<P.Name>)
    | FinalSide(todo: set<P.Name>, listed: set<P.Name>)
    | Mismatch
    | Done(published: bool)

  /** `staged` is what the stage held when its publisher marked it. */
  datatype Check = Check(staged: Option<Entries>, step: Step)

  datatype Spot = Spot(path: Path, name: P.Name)

  /** `temps` maps every temporary binary in a generation to the reader that made it. */
  datatype World = World(env: Env, life: L.World, files: map<Path, Entries>, checks: map<nat, Check>, temps: map<Spot, nat>)

  /** The steps of one publication between its beginning and its end. */
  datatype Act =
    | Mark
    | Lock
    | Move(movable: bool)
    | ListStage
    | CheckStage(name: P.Name)
    | ListFinal
    | CheckFinal(name: P.Name)
    | Discard
    | Refuse
    | Unlock
    | Unmark

  datatype Event =
    | Plain(e: L.Event)
    | Begin(n: nat, stage: Path, final: Path)
    | Do(n: nat, act: Act)
    | End(n: nat)
    | Collect(i: nat, keep: bool, movable: bool)
    | Write(r: nat, path: Path, entries: Entries, info: L.Dir)
    | Temp(r: nat, path: Path, name: P.Name, content: Option<seq<bv8>>, info: L.Dir)
    | Link(path: Path, name: P.Name, bytes: seq<bv8>, info: L.Dir)
    | Elsewhere(files: map<Path, Entries>, dirs: map<Path, L.Dir>, locks: set<Path>)

  function EntriesAt(files: map<Path, Entries>, p: Path): Option<Entries> {
    if p in files then Some(files[p]) else None
  }

  function BinaryNames(entries: Entries): set<P.Name> {
    set name | name in entries && P.Binary(name)
  }

  function TempNames(temps: map<Spot, nat>, p: Path): set<P.Name> {
    set spot | spot in temps && spot.path == p :: spot.name
  }

  /** The binaries of a directory that are nobody's temporary file. */
  function Fixed(entries: Entries, temps: set<P.Name>): Entries {
    map name | name in entries && P.Binary(name) && name !in temps :: entries[name]
  }

  ghost function FixedAt(w: World, p: Path): Entries
    requires p in w.files
  {
    Fixed(w.files[p], TempNames(w.temps, p))
  }

  /** Every entry of `before` stays, and the others of `after` are `more`. */
  ghost predicate Grows(before: Entries, after: Entries, more: set<P.Name>) {
    (forall name :: name in before ==> name in after && after[name] == before[name]) && after.Keys == before.Keys + more
  }

  ghost predicate SameBinaries(before: Entries, after: Entries) {
    forall name :: P.Binary(name) ==> (name in before <==> name in after) && (name in before ==> after[name] == before[name])
  }

  /** No entry has a name that is kept for temporary files. */
  ghost predicate Clean(env: Env, entries: Entries) {
    forall name :: name in entries ==> !env.temporary(name)
  }

  ghost predicate HeldBy(leases: map<L.Holder, set<Path>>, h: L.Holder, p: Path) {
    h in leases && p in leases[h]
  }

  /** A write in place leaves the binaries of a generation alone, and a stage free of temporary names. */
  ghost predicate Writable(env: Env, p: Path, before: Option<Entries>, after: Entries) {
    if env.staging(p) then Clean(env, after) else SameBinaries(if before.Some? then before.value else map[], after)
  }

  /** A reader makes a file of its own under an unused temporary name, and rewrites or removes only its own. */
  ghost predicate CanTemp(w: World, r: nat, path: Path, name: P.Name, content: Option<seq<bv8>>) {
    && HeldBy(w.life.leases, L.Reader(r), path) && path in w.files && !w.env.staging(path)
    && P.Binary(name) && w.env.temporary(name)
    && if name in w.files[path] then Spot(path, name) in w.temps && w.temps[Spot(path, name)] == r else content.Some?
  }

  /**
   What other processes leave of a path held here: a stage as it is, the binaries of a
   generation, and a destination that is still absent while its lock is held.
   */
  ghost predicate Spared(w: World, files: map<Path, Entries>, p: Path) {
    if w.env.staging(p) then EntriesAt(files, p) == EntriesAt(w.files, p)
    else if p in w.files then p in files && SameBinaries(w.files[p], files[p])
    else p in files ==> forall n :: n in w.life.pubs && w.life.pubs[n].final == p ==> !L.HoldsLock(w.life.pubs[n].phase)
  }

  ghost predicate CanDo(w: World, n: nat, act: Act) {
    && n in w.checks && n in w.life.pubs
    && var p, step := w.life.pubs[n], w.checks[n].step;
    match act
    case Mark => p.phase == L.Begun
    case Lock => p.phase == L.Marked
    case Move(movable) => p.phase == L.Locked
    case ListStage => step == ToList && p.stage in w.files
    case CheckStage(name) => step.StageSide? && name in step.todo && p.stage in w.files && p.final in w.files
    case ListFinal => step == StageSide({}) && p.final in w.files
    case CheckFinal(name) => step.FinalSide? && name in step.todo && p.stage in w.files && p.final in w.files
    case Discard => p.phase == L.Comparing && step.FinalSide? && step.todo == {}
    case Refuse => p.phase == L.Comparing
    case Unlock => p.phase == L.Moved
    case Unmark => p.phase == L.Unlocked
  }

  ghost predicate Can(w: World, e: Event) {
    match e
    case Plain(l) =>
      && (l.Lease? || l.Release? || l.Watch? || l.Close?) && L.Enabled(w.life, l)
      && (l.Release? ==> forall spot :: spot in w.temps ==> w.temps[spot] != l.n)
    case Begin(n, stage, final) => n !in w.life.pubs && w.env.staging(stage) && !w.env.staging(final)
    case Do(n, act) => CanDo(w, n, act)
    case End(n) => n in w.life.pubs && w.life.pubs[n].phase == L.Ended
    case Collect(i, keep, movable) => i in w.life.watches
    case Write(r, path, entries, info) => HeldBy(w.life.leases, L.Reader(r), path) && Writable(w.env, path, EntriesAt(w.files, path), entries)
    case Temp(r, path, name, content, info) => CanTemp(w, r, path, name, content)
    case Link(path, name, bytes, info) => path in w.files && !w.env.staging(path)
    case Elsewhere(files, dirs, locks) =>
      && files.Keys == dirs.Keys && L.Enabled(w.life, L.Outside(dirs, locks))
      && (forall h, p :: HeldBy(w.life.leases, h, p) ==> Spared(w, files, p)) && StagesClean(w.env, files)
  }

  ghost predicate StagesClean(env: Env, files: map<Path, Entries>) {
    forall p :: p in files && env.staging(p) ==> Clean(env, files[p])
  }

  /** The lifecycle step that a step is. */
  function ActLife(life: L.World, n: nat, act: Act): L.Event {
    match act
    case Mark => L.Mark(n)
    case Lock => L.Lock(n)
    case Move(movable) => L.Move(n, movable)
    case Discard => L.Compare(n, true)
    case Refuse => L.Compare(n, false)
    case Unlock => L.Unlock(n)
    case Unmark => L.Unmark(n)
    case _ => L.Outside(life.dirs, life.locks)
  }

  ghost function LifeOf(w: World, e: Event): L.Event
    requires Can(w, e)
  {
    match e
    case Plain(l) => l
    case Begin(n, stage, final) => L.Begin(n, stage, final)
    case Do(n, act) => ActLife(w.life, n, act)
    case End(n) => L.End(n)
    case Collect(i, keep, movable) => L.Remove(i, keep, movable)
    case Write(r, path, entries, info) => L.Outside(w.life.dirs[path := info], w.life.locks)
    case Temp(r, path, name, content, info) => L.Outside(w.life.dirs[path := info], w.life.locks)
    case Link(path, name, bytes, info) =>
      L.Outside(if name in w.files[path] then w.life.dirs else w.life.dirs[path := info], w.life.locks)
    case Elsewhere(files, dirs, locks) => L.Outside(dirs, locks)
  }

  ghost function ActFiles(w: World, n: nat, act: Act): map<Path, Entries>
    requires CanDo(w, n, act)
  {
    var p := w.life.pubs[n];
    match act
    case Move(movable) =>
      if p.final in w.files || p.stage !in w.files || !movable then w.files
      else (w.files - {p.stage})[p.final := w.files[p.stage]]
    case Discard => w.files - {p.stage}
    case _ => w.files
  }

  ghost function FilesAfter(w: World, e: Event): map<Path, Entries>
    requires Can(w, e)
  {
    match e
    case Do(n, act) => ActFiles(w, n, act)
    case Collect(i, keep, movable) => if L.Collects(w.life, i, keep) && movable then w.files - {w.life.watches[i].path} else w.files
    case Write(r, path, entries, info) => w.files[path := entries]
    case Temp(r, path, name, content, info) =>
      w.files[path := if content.Some? then w.files[path][name := P.Regular(content.value)] else w.files[path] - {name}]
    case Link(path, name, bytes, info) =>
      if name in w.files[path] then w.files else w.files[path := w.files[path][name := P.Regular(bytes)]]
    case Elsewhere(files, dirs, locks) => files
    case _ => w.files
  }

  /** Whether one entry is the same on both sides of a publication. */
  ghost predicate Equal(w: World, n: nat, name: P.Name)
    requires n in w.life.pubs && w.life.pubs[n].stage in w.files && w.life.pubs[n].final in w.files
  {
    P.SameAt(w.env.digest, w.files[w.life.pubs[n].stage], w.files[w.life.pubs[n].final], name)
  }

  ghost function ActCheck(w: World, n: nat, act: Act): Check
    requires CanDo(w, n, act)
  {
    var c, p := w.checks[n], w.life.pubs[n];
    match act
    case Mark => if L.RefsOf(w.life.reg, p.stage) == 1 then Check(EntriesAt(w.files, p.stage), Waiting) else c.(step := Done(false))
    case Lock => if p.final !in w.life.locks then c else c.(step := Done(false))
    case Move(movable) => c.(step := if p.final in w.files then ToList else Done(p.stage in w.files && movable))
    case ListStage => c.(step := StageSide(w.files[p.stage].Keys))
    case CheckStage(name) => c.(step := if Equal(w, n, name) then StageSide(c.step.todo - {name}) else Mismatch)
    case ListFinal => c.(step := FinalSide(w.files[p.final].Keys, w.files[p.final].Keys))
    case CheckFinal(name) => c.(step := if Equal(w, n, name) then FinalSide(c.step.todo - {name}, c.step.listed) else Mismatch)
    case Discard => c.(step := Done(true))
    case Refuse => c.(step := Done(false))
    case _ => c
  }

  ghost function ChecksAfter(w: World, e: Event): map<nat, Check>
    requires Can(w, e)
  {
    match e
    case Begin(n, stage, final) => if CanLease(w.life.reg, {stage, final}) then w.checks[n := Check(None, Waiting)] else w.checks
    case Do(n, act) => w.checks[n := ActCheck(w, n, act)]
    case End(n) => w.checks - {n}
    case _ => w.checks
  }

  ghost function TempsAfter(w: World, e: Event): map<Spot, nat> {
    if e.Temp? then if e.content.Some? then w.temps[Spot(e.path, e.name) := e.r] else w.temps - {Spot(e.path, e.name)}
    else w.temps
  }

  ghost predicate Enabled(w: World, e: Event) {
    Can(w, e) && L.Enabled(w.life, LifeOf(w, e))
  }

  ghost function Apply(w: World, e: Event): World
    requires Enabled(w, e)
  {
    World(w.env, L.Apply(w.life, LifeOf(w, e)), FilesAfter(w, e), ChecksAfter(w, e), TempsAfter(w, e))
  }

  // What holds in every reachable world.

  /** Every binary that was staged is in the destination, with the same size and digest. */
  ghost predicate Delivered(digest: seq<bv8> -> P.Digest, staged: Entries, final: Entries) {
    forall name :: name in staged && P.Binary(name) && staged[name].Regular? ==> name in final && P.SameFile(digest, staged[name], final[name])
  }

  ghost predicate AllSame(digest: seq<bv8> -> P.Digest, staged: Entries, final: Entries, names: set<P.Name>) {
    forall name :: name in names ==> P.SameAt(digest, staged, final, name)
  }

  predicate Fits(ph: L.Phase, step: Step) {
    match ph
    case Begun => step == Waiting
    case Marked => step == Waiting
    case Locked => step == Waiting
    case Comparing => step != Waiting && !step.Done?
    case _ => step.Done?
  }

  /** What the steps of a publication have established so far. */
  ghost predicate Compared(digest: seq<bv8> -> P.Digest, c: Check, final: Option<Entries>) {
    match c.step
    case Waiting => true
    case ToList => final.Some?
    case StageSide(todo) => c.staged.Some? && final.Some? && AllSame(digest, c.staged.value, final.value, c.staged.value.Keys - todo)
    case FinalSide(todo, listed) =>
      && c.staged.Some? && final.Some?
      && AllSame(digest, c.staged.value, final.value, c.staged.value.Keys) && AllSame(digest, c.staged.value, final.value, listed - todo)
    case Mismatch => final.Some?
    case Done(published) => published ==> c.staged.Some? && final.Some? && Delivered(digest, c.staged.value, final.value)
  }

  ghost predicate Tracked(env: Env, files: map<Path, Entries>, p: L.Publication, c: Check) {
    && env.staging(p.stage) && !env.staging(p.final)
    && (c.staged.Some? ==> Clean(env, c.staged.value))
    && Fits(p.phase, c.step)
    && (L.Exclusive(p.phase) && c.step != Done(true) ==> EntriesAt(files, p.stage) == c.staged)
    && Compared(env.digest, c, EntriesAt(files, p.final))
  }

  ghost predicate AllTracked(env: Env, files: map<Path, Entries>, pubs: map<nat, L.Publication>, checks: map<nat, Check>) {
    pubs.Keys == checks.Keys && forall n :: n in pubs ==> Tracked(env, files, pubs[n], checks[n])
  }

  ghost predicate Inv(w: World) {
    && L.Inv(w.life)
    && w.files.Keys == w.life.dirs.Keys
    && AllTracked(w.env, w.files, w.life.pubs, w.checks)
    && StagesClean(w.env, w.files) && TempsOk(w.env, w.life.leases, w.files, w.temps)
  }

  /** A temporary binary is a regular file in a generation that its maker holds. */
  ghost predicate TempOk(env: Env, leases: map<L.Holder, set<Path>>, files: map<Path, Entries>, spot: Spot, r: nat) {
    && HeldBy(leases, L.Reader(r), spot.path) && !env.staging(spot.path) && spot.path in files
    && spot.name in files[spot.path] && files[spot.path][spot.name].Regular? && P.Binary(spot.name) && env.temporary(spot.name)
  }

  ghost predicate TempsOk(env: Env, leases: map<L.Holder, set<Path>>, files: map<Path, Entries>, temps: map<Spot, nat>) {
    forall spot :: spot in temps ==> TempOk(env, leases, files, spot, temps[spot])
  }

  function Init(env: Env, files: map<Path, Entries>, dirs: map<Path, L.Dir>, locks: set<Path>): World {
    World(env, L.Init(dirs, locks), files, map[], map[])
  }

  lemma InitInv(env: Env, files: map<Path, Entries>, dirs: map<Path, L.Dir>, locks: set<Path>)
    requires files.Keys == dirs.Keys && StagesClean(env, files)
    ensures Inv(Init(env, files, dirs, locks))
  {
    hide L.Inv;
    L.InitInv(dirs, locks);
  }

  /** Under the invariant the lifecycle allows every step. */
  lemma CanIsEnabled(w: World, e: Event)
    requires Inv(w) && Can(w, e)
    ensures Enabled(w, e)
  {
    hide L.Inv, AllTracked, StagesClean, TempsOk, CanTemp, Writable, Spared;
    if LifeOf(w, e).Outside? && !e.Elsewhere? { LocksHeld(w.life, LifeOf(w, e).dirs); }
  }

  lemma LocksHeld(life: L.World, dirs: map<Path, L.Dir>)
    requires L.Inv(life)
    ensures L.Enabled(life, L.Outside(dirs, life.locks))
  {
    hide L.AllCounted, L.AllPinned, L.AllFlagged, L.Leases;
    assert forall n :: n in life.pubs ==> L.Publishing(life.leases, life.locks, n, life.pubs[n]);
  }

  // What a step does to the lifecycle.

  ghost function ActPhase(w: World, n: nat, act: Act): L.Phase
    requires CanDo(w, n, act)
  {
    var p := w.life.pubs[n];
    match act
    case Mark => if L.RefsOf(w.life.reg, p.stage) == 1 then L.Marked else L.Ended
    case Lock => if p.final !in w.life.locks then L.Locked else L.Unlocked
    case Move(_) => if p.final in w.life.dirs then L.Comparing else L.Moved
    case Discard => L.Moved
    case Refuse => L.Moved
    case Unlock => L.Unlocked
    case Unmark => L.Ended
    case _ => p.phase
  }

  ghost function PubsAfter(w: World, e: Event): map<nat, L.Publication>
    requires Can(w, e)
  {
    match e
    case Begin(n, stage, final) =>
      if CanLease(w.life.reg, {stage, final}) then w.life.pubs[n := L.Publication(stage, final, L.Begun)] else w.life.pubs
    case Do(n, act) => w.life.pubs[n := w.life.pubs[n].(phase := ActPhase(w, n, act))]
    case End(n) => w.life.pubs - {n}
    case _ => w.life.pubs
  }

  lemma LifePubs(w: World, e: Event)
    requires Enabled(w, e)
    ensures Apply(w, e).life.pubs == PubsAfter(w, e)
  {
    hide FilesAfter, ChecksAfter, CanLease, CanWatch, Acquired, Dropped, L.Flag, L.Collects, L.Bumped, L.RefsOf, Writable, Spared, CanTemp, StagesClean;
    if e.Do? { DoPubs(w, e.n, e.act); }
  }

  lemma DoPubs(w: World, n: nat, act: Act)
    requires CanDo(w, n, act) && L.Enabled(w.life, ActLife(w.life, n, act))
    ensures L.Apply(w.life, ActLife(w.life, n, act)).pubs == w.life.pubs[n := w.life.pubs[n].(phase := ActPhase(w, n, act))]
  {
    hide L.Flag, L.RefsOf;
    assert w.life.pubs == w.life.pubs[n := w.life.pubs[n]];
  }

  /** The directories of the lifecycle and of the contents are the same ones. */
  lemma SameKeys(w: World, e: Event)
    requires Enabled(w, e) && w.files.Keys == w.life.dirs.Keys
    ensures Apply(w, e).files.Keys == Apply(w, e).life.dirs.Keys
  {
    hide ChecksAfter, ActFiles, CanDo, L.Apply, L.Enabled, L.Collects, Writable, Spared, StagesClean;
    match e
    case Do(n, act) => DoKeys(w, n, act);
    case Collect(i, keep, movable) => CollectDirs(w.life, i, keep, movable);
    case _ => RestDirs(w.life, LifeOf(w, e));
  }

  lemma CollectDirs(life: L.World, i: nat, keep: bool, movable: bool)
    requires L.Enabled(life, L.Remove(i, keep, movable))
    ensures L.Apply(life, L.Remove(i, keep, movable)).dirs ==
              if L.Collects(life, i, keep) && movable then life.dirs - {life.watches[i].path} else life.dirs
  {
    hide L.Collects;
  }

  lemma RestDirs(life: L.World, e: L.Event)
    requires L.Enabled(life, e) && !e.Remove? && !e.Move? && !e.Compare?
    ensures L.Apply(life, e).dirs == if e.Outside? then e.dirs else life.dirs
  {
    hide CanLease, CanWatch, Acquired, Dropped, L.Flag, L.Bumped, L.RefsOf;
  }

  lemma MoveDirs(life: L.World, n: nat, movable: bool)
    requires L.Enabled(life, L.Move(n, movable))
    ensures var p, dirs := life.pubs[n], L.Apply(life, L.Move(n, movable)).dirs;
            dirs == if p.final in life.dirs || p.stage !in life.dirs || !movable then life.dirs
                    else (life.dirs - {p.stage})[p.final := life.dirs[p.stage]]
  {
  }

  lemma CompareDirs(life: L.World, n: nat, same: bool)
    requires L.Enabled(life, L.Compare(n, same))
    ensures L.Apply(life, L.Compare(n, same)).dirs == if same then life.dirs - {life.pubs[n].stage} else life.dirs
  {
  }

  lemma DoKeys(w: World, n: nat, act: Act)
    requires CanDo(w, n, act) && L.Enabled(w.life, ActLife(w.life, n, act)) && w.files.Keys == w.life.dirs.Keys
    ensures ActFiles(w, n, act).Keys == L.Apply(w.life, ActLife(w.life, n, act)).dirs.Keys
    ensures !act.Discard? && ActCheck(w, n, act).step != Done(true) ==> L.Apply(w.life, ActLife(w.life, n, act)).dirs == w.life.dirs
  {
    hide L.RefsOf, Equal, L.Apply, L.Enabled;
    match act
    case Move(movable) => MoveDirs(w.life, n, movable);
    case Discard => CompareDirs(w.life, n, true);
    case Refuse => CompareDirs(w.life, n, false);
    case _ => RestDirs(w.life, ActLife(w.life, n, act));
  }

  // Held paths.

  lemma HeldIsNotCollected(life: L.World, h: L.Holder, i: nat, keep: bool)
    requires L.Inv(life) && i in life.watches && HeldBy(life.leases, h, life.watches[i].path)
    ensures !L.Collects(life, i, keep)
  {
    hide L.Inv, L.Collects;
    L.CollectsNow(life, i, keep);
    assert h in L.Leases(life.leases, life.watches[i].path);
  }

  /** The binary that a step links into a directory. */
  ghost function LinkedBy(w: World, e: Event, p: Path): set<P.Name> {
    if e.Link? && e.path == p && p in w.files && e.name !in w.files[p] && P.Binary(e.name) then {e.name} else {}
  }

  /** The temporary file that a step makes, rewrites or removes. */
  predicate Touches(e: Event, p: Path, name: P.Name) {
    e.Temp? && e.path == p && e.name == name
  }

  /** What one step does to one binary of a generation that somebody holds. */
  lemma HeldEntry(w: World, e: Event, h: L.Holder, p: Path, name: P.Name)
    requires Inv(w) && Enabled(w, e) && HeldBy(w.life.leases, h, p) && !w.env.staging(p) && p in w.files && P.Binary(name)
    ensures var u := Apply(w, e);
            && p in u.files
            && (!Touches(e, p, name) && name in w.files[p] ==> name in u.files[p] && u.files[p][name] == w.files[p][name])
            && (!Touches(e, p, name) && name !in w.files[p] ==> (name in u.files[p] <==> name in LinkedBy(w, e, p)))
  {
    hide Inv, L.Collects, L.Enabled, L.Apply, P.Binary, ChecksAfter, CanDo, ActFiles, CanTemp, StagesClean;
    match e
    case Do(n, act) => DoIsKnown(w, n, act); StagingPaths(w, n); DoKeeps(w, n, act, p);
    case Collect(i, keep, movable) =>
      if w.life.watches[i].path == p { NotCollected(w, h, i, keep); }
    case Temp(r, path, other, content, info) => TempHasDir(w, r, path, other, content);
    case Elsewhere(files, dirs, locks) => assert Spared(w, files, p);
    case _ =>
  }

  lemma TempHasDir(w: World, r: nat, path: Path, name: P.Name, content: Option<seq<bv8>>)
    requires CanTemp(w, r, path, name, content)
    ensures path in w.files && (name in w.files[path] ==> Spot(path, name) in w.temps)
    ensures name !in w.files[path] ==> content.Some?
  {
  }

  lemma TempName(temps: map<Spot, nat>, p: Path, name: P.Name)
    ensures name in TempNames(temps, p) <==> Spot(p, name) in temps
  {
    assert Spot(p, name) in temps ==> Spot(p, name).name in TempNames(temps, p);
  }

  /** Whether a name is one of the fixed binaries of a directory. */
  lemma FixedEntry(w: World, p: Path, name: P.Name)
    requires p in w.files
    ensures name in FixedAt(w, p) <==> name in w.files[p] && P.Binary(name) && Spot(p, name) !in w.temps
    ensures name in FixedAt(w, p) ==> FixedAt(w, p)[name] == w.files[p][name]
  {
    hide TempNames, P.Binary;
    TempName(w.temps, p, name);
  }

  lemma TempIsThere(w: World, spot: Spot)
    requires Inv(w) && spot in w.temps
    ensures TempOk(w.env, w.life.leases, w.files, spot, w.temps[spot])
  {
    hide L.Inv, AllTracked, StagesClean, TempOk;
  }

  lemma HeldFixed(w: World, e: Event, h: L.Holder, p: Path, name: P.Name)
    requires Inv(w) && Enabled(w, e) && HeldBy(w.life.leases, h, p) && !w.env.staging(p) && p in w.files && p in Apply(w, e).files
    ensures var u := Apply(w, e);
            && (name in FixedAt(w, p) ==> name in FixedAt(u, p) && FixedAt(u, p)[name] == FixedAt(w, p)[name])
            && (name in FixedAt(u, p) <==> name in FixedAt(w, p) || name in LinkedBy(w, e, p))
  {
    hide Inv, Enabled, Apply, FixedAt, P.Binary, HeldBy;
    var u := Apply(w, e);
    FixedEntry(w, p, name);
    FixedEntry(u, p, name);
    TempsChange(w, e, p, name);
    if P.Binary(name) {
      HeldEntry(w, e, h, p, name);
      if Spot(p, name) in w.temps { TempIsThere(w, Spot(p, name)); }
    }
  }

  /** How a step changes who has a temporary file, and that a touched name is one or is gone. */
  lemma TempsChange(w: World, e: Event, p: Path, name: P.Name)
    requires Enabled(w, e) && p in w.files && p in Apply(w, e).files
    ensures var u := Apply(w, e);
            && (!Touches(e, p, name) ==> (Spot(p, name) in u.temps <==> Spot(p, name) in w.temps))
            && (Touches(e, p, name) ==>
                  && (name in w.files[p] ==> Spot(p, name) in w.temps)
                  && (name in u.files[p] ==> Spot(p, name) in u.temps))
  {
    hide L.Apply, L.Enabled, ChecksAfter, CanDo, ActFiles, P.Binary, HeldBy;
  }

  /** Whoever holds a generation finds every binary in it that is nobody's temporary file unchanged after any step, and only links add to them. */
  lemma HeldKeeps(w: World, e: Event, h: L.Holder, p: Path)
    requires Inv(w) && Enabled(w, e) && HeldBy(w.life.leases, h, p) && !w.env.staging(p) && p in w.files
    ensures var u := Apply(w, e);
            p in u.files && Grows(FixedAt(w, p), FixedAt(u, p), LinkedBy(w, e, p))
  {
    hide Inv, Enabled, Apply, FixedAt, LinkedBy, HeldBy;
    IndexIsBinary();
    HeldEntry(w, e, h, p, INDEX);
    var u := Apply(w, e);
    var a, b, more := FixedAt(w, p), FixedAt(u, p), LinkedBy(w, e, p);
    forall name
      ensures (name in a ==> name in b && b[name] == a[name]) && (name in b <==> name in a || name in more)
    {
      HeldFixed(w, e, h, p, name);
    }
  }

  lemma NotCollected(w: World, h: L.Holder, i: nat, keep: bool)
    requires Inv(w) && i in w.life.watches && HeldBy(w.life.leases, h, w.life.watches[i].path)
    ensures !L.Collects(w.life, i, keep)
  {
    hide L.Inv, L.Collects, AllTracked, StagesClean, TempsOk;
    HeldIsNotCollected(w.life, h, i, keep);
  }

  /** A publication takes away its own stage and nothing else. */
  lemma DoKeeps(w: World, n: nat, act: Act, p: Path)
    requires CanDo(w, n, act) && p != w.life.pubs[n].stage && p in w.files
    ensures p in ActFiles(w, n, act) && ActFiles(w, n, act)[p] == w.files[p]
  {
  }

  /** The invariant for one publication. */
  lemma Track(w: World, n: nat)
    requires Inv(w) && n in w.life.pubs
    ensures n in w.checks && Tracked(w.env, w.files, w.life.pubs[n], w.checks[n])
  {
    hide L.Inv, Tracked, StagesClean, TempsOk;
  }

  lemma StagingPaths(w: World, n: nat)
    requires Inv(w) && n in w.life.pubs
    ensures w.env.staging(w.life.pubs[n].stage) && !w.env.staging(w.life.pubs[n].final)
  {
    hide Inv, Compared;
    Track(w, n);
  }

  predicate Mine(e: Event, n: nat) {
    e.Do? && e.n == n
  }

  /** A marked stage is changed by nobody but its publisher. */
  lemma StageKeeps(w: World, e: Event, n: nat)
    requires Inv(w) && Enabled(w, e) && n in w.life.pubs && L.Exclusive(w.life.pubs[n].phase) && !Mine(e, n)
    ensures EntriesAt(Apply(w, e).files, w.life.pubs[n].stage) == EntriesAt(w.files, w.life.pubs[n].stage)
  {
    hide Inv, L.Collects, L.Enabled, L.Apply, L.Exclusive, P.Binary, ChecksAfter, CanDo, ActFiles, Writable, StagesClean;
    var stage := w.life.pubs[n].stage;
    LifeInv(w);
    StageHeld(w.life, n);
    StagingPaths(w, n);
    match e
    case Do(m, act) => DoIsKnown(w, m, act); StagingPaths(w, m); OtherStage(w.life, n, m); DoElsewhere(w, m, act, stage);
    case Collect(i, keep, movable) =>
      if w.life.watches[i].path == stage { NotCollected(w, L.Publisher(n), i, keep); }
    case Elsewhere(files, dirs, locks) => assert Spared(w, files, stage);
    case _ =>
  }

  lemma DoIsKnown(w: World, n: nat, act: Act)
    requires CanDo(w, n, act)
    ensures n in w.life.pubs && n in w.checks
  {
  }

  lemma DoElsewhere(w: World, n: nat, act: Act, p: Path)
    requires CanDo(w, n, act) && p != w.life.pubs[n].stage && p != w.life.pubs[n].final
    ensures EntriesAt(ActFiles(w, n, act), p) == EntriesAt(w.files, p)
  {
  }

  lemma LifeInv(w: World)
    requires Inv(w)
    ensures L.Inv(w.life) && w.files.Keys == w.life.dirs.Keys
    ensures StagesClean(w.env, w.files) && TempsOk(w.env, w.life.leases, w.files, w.temps)
  {
    hide L.Inv, AllTracked, StagesClean, TempsOk;
  }

  lemma OtherStage(life: L.World, n: nat, m: nat)
    requires L.Inv(life) && n in life.pubs && m in life.pubs && m != n && L.Exclusive(life.pubs[n].phase)
    ensures life.pubs[m].stage != life.pubs[n].stage && life.pubs[m].final != life.pubs[n].stage
  {
    hide L.Inv;
    StageHeld(life, n);
    StageHeld(life, m);
  }

  /** What a publisher holds, and that from the mark on nobody else holds its stage. */
  lemma StageHeld(life: L.World, n: nat)
    requires L.Inv(life) && n in life.pubs
    ensures HeldBy(life.leases, L.Publisher(n), life.pubs[n].stage) && HeldBy(life.leases, L.Publisher(n), life.pubs[n].final)
    ensures L.Exclusive(life.pubs[n].phase) ==> forall h :: HeldBy(life.leases, h, life.pubs[n].stage) ==> h == L.Publisher(n)
  {
    hide L.AllCounted, L.AllPinned, L.AllFlagged;
    assert L.Publishing(life.leases, life.locks, n, life.pubs[n]);
    var stage := life.pubs[n].stage;
    forall h | L.Exclusive(life.pubs[n].phase) && HeldBy(life.leases, h, stage)
      ensures h == L.Publisher(n)
    {
      assert h in L.Leases(life.leases, stage);
    }
  }

  // Preservation.

  /** The binaries of a directory whose names are no temporary ones stay. */
  ghost predicate KeepsArtifacts(env: Env, before: Entries, after: Entries) {
    forall name :: name in before && P.Binary(name) && !env.temporary(name) ==> name in after && after[name] == before[name]
  }

  /** What was compared stays compared while the artifacts of the destination stay. */
  lemma Carries(env: Env, c: Check, before: Option<Entries>, after: Option<Entries>)
    requires Compared(env.digest, c, before) && (c.staged.Some? ==> Clean(env, c.staged.value))
    requires before.Some? ==> after.Some? && KeepsArtifacts(env, before.value, after.value)
    ensures Compared(env.digest, c, after)
  {
    hide P.SameFile, P.Hint, P.Binary;
  }

  /** Nobody else moves a publication on. */
  lemma OthersStay(w: World, e: Event, n: nat)
    requires Enabled(w, e) && n in w.life.pubs && n in w.checks && !Mine(e, n) && e != End(n)
    ensures var u := Apply(w, e);
            n in u.life.pubs && u.life.pubs[n] == w.life.pubs[n] && n in u.checks && u.checks[n] == w.checks[n]
  {
    hide L.Apply, L.Enabled, CanLease, CanDo, ActCheck, ActPhase, FilesAfter;
    LifePubs(w, e);
  }

  lemma OwnStep(w: World, n: nat, act: Act)
    requires Enabled(w, Do(n, act))
    ensures var u := Apply(w, Do(n, act));
            && n in w.life.pubs && n in w.checks
            && n in u.life.pubs && u.life.pubs[n] == w.life.pubs[n].(phase := ActPhase(w, n, act))
            && n in u.checks && u.checks[n] == ActCheck(w, n, act) && u.files == ActFiles(w, n, act) && u.env == w.env
  {
    hide L.Apply, L.Enabled, ActCheck, ActPhase, ActFiles;
    LifePubs(w, Do(n, act));
  }

  lemma OtherOk(w: World, e: Event, n: nat)
    requires Inv(w) && Enabled(w, e) && n in w.life.pubs && !Mine(e, n) && e != End(n)
    ensures var u := Apply(w, e);
            n in u.life.pubs && n in u.checks && Tracked(w.env, u.files, u.life.pubs[n], u.checks[n])
  {
    hide Inv, Apply, Enabled, Can, Compared, Fits, KeepsArtifacts, Clean, L.Exclusive;
    var u, p := Apply(w, e), w.life.pubs[n];
    Track(w, n);
    OthersStay(w, e, n);
    if L.Exclusive(p.phase) { StageKeeps(w, e, n); }
    FinalKept(w, e, n);
    Carries(w.env, w.checks[n], EntriesAt(w.files, p.final), EntriesAt(u.files, p.final));
  }

  lemma FinalKept(w: World, e: Event, n: nat)
    requires Inv(w) && Enabled(w, e) && n in w.life.pubs
    ensures var u, final := Apply(w, e), w.life.pubs[n].final;
            final in w.files ==> final in u.files && KeepsArtifacts(w.env, w.files[final], u.files[final])
  {
    hide Inv, Apply, Enabled, Can, P.Binary, HeldBy;
    var u, final := Apply(w, e), w.life.pubs[n].final;
    LifeInv(w);
    StageHeld(w.life, n);
    StagingPaths(w, n);
    if final in w.files {
      HeldKeeps(w, e, L.Publisher(n), final);
      forall name | name in w.files[final] && P.Binary(name) && !w.env.temporary(name)
        ensures name in u.files[final] && u.files[final][name] == w.files[final][name]
      {
        HeldEntry(w, e, L.Publisher(n), final, name);
        TouchIsTemporary(w, e, final, name);
      }
    }
  }

  lemma TouchIsTemporary(w: World, e: Event, p: Path, name: P.Name)
    requires Enabled(w, e)
    ensures Touches(e, p, name) ==> w.env.temporary(name)
  {
    hide L.Enabled;
  }

  lemma ActFits(w: World, n: nat, act: Act)
    requires Inv(w) && CanDo(w, n, act)
    ensures Fits(ActPhase(w, n, act), ActCheck(w, n, act).step)
  {
    hide Inv, Compared, Equal, L.RefsOf;
    LifeInv(w);
    Track(w, n);
  }

  lemma ActStage(w: World, n: nat, act: Act)
    requires Inv(w) && CanDo(w, n, act) && L.Exclusive(ActPhase(w, n, act)) && ActCheck(w, n, act).step != Done(true)
    ensures EntriesAt(ActFiles(w, n, act), w.life.pubs[n].stage) == ActCheck(w, n, act).staged
  {
    hide Inv, Compared, Equal;
    Track(w, n);
  }

  lemma ActCompared(w: World, n: nat, act: Act)
    requires Inv(w) && CanDo(w, n, act)
    ensures Compared(w.env.digest, ActCheck(w, n, act), EntriesAt(ActFiles(w, n, act), w.life.pubs[n].final))
  {
    hide Inv, Delivered, AllSame, P.SameAt, L.RefsOf;
    Track(w, n);
    var p, c, digest := w.life.pubs[n], w.checks[n], w.env.digest;
    match act
    case Move(movable) =>
      if p.stage in w.files { Unchanged(digest, w.files[p.stage]); }
    case CheckStage(name) => OneMore(digest, w.files[p.stage], w.files[p.final], c.staged.value.Keys, c.step.todo, name);
    case CheckFinal(name) => OneMore(digest, w.files[p.stage], w.files[p.final], c.step.listed, c.step.todo, name);
    case ListStage => NoneYet(digest, w.files[p.stage], w.files[p.final], w.files[p.stage].Keys);
    case ListFinal =>
      assert c.staged.value.Keys - {} == c.staged.value.Keys;
      NoneYet(digest, c.staged.value, w.files[p.final], w.files[p.final].Keys);
    case Discard => SameIsDelivered(digest, c.staged.value, w.files[p.final]);
    case _ =>
  }

  lemma Unchanged(digest: seq<bv8> -> P.Digest, a: Entries)
    ensures Delivered(digest, a, a)
  {
  }

  lemma OneMore(digest: seq<bv8> -> P.Digest, a: Entries, b: Entries, names: set<P.Name>, todo: set<P.Name>, name: P.Name)
    requires AllSame(digest, a, b, names - todo)
    ensures P.SameAt(digest, a, b, name) ==> AllSame(digest, a, b, names - (todo - {name}))
  {
    hide P.SameAt;
  }

  lemma NoneYet(digest: seq<bv8> -> P.Digest, a: Entries, b: Entries, names: set<P.Name>)
    ensures AllSame(digest, a, b, names - names)
  {
  }

  lemma SameIsDelivered(digest: seq<bv8> -> P.Digest, a: Entries, b: Entries)
    requires AllSame(digest, a, b, a.Keys)
    ensures Delivered(digest, a, b)
  {
    hide P.SameFile, P.Hint, P.Binary;
    forall name | name in a && P.Binary(name) && a[name].Regular?
      ensures name in b && P.SameFile(digest, a[name], b[name])
    {
      P.HintsAreNotBinary(name);
      assert P.SameAt(digest, a, b, name);
    }
  }

  /** What is staged has no temporary names. */
  lemma ActClean(w: World, n: nat, act: Act)
    requires Inv(w) && CanDo(w, n, act)
    ensures ActCheck(w, n, act).staged.Some? ==> Clean(w.env, ActCheck(w, n, act).staged.value)
  {
    hide Inv, Compared, Equal, L.RefsOf, Clean;
    LifeInv(w);
    Track(w, n);
  }

  lemma OwnOk(w: World, n: nat, act: Act)
    requires Inv(w) && Enabled(w, Do(n, act))
    ensures var u := Apply(w, Do(n, act));
            n in u.life.pubs && n in u.checks && Tracked(w.env, u.files, u.life.pubs[n], u.checks[n])
  {
    hide Inv, CanDo, Compared, Fits, Clean, ActPhase, ActCheck, ActFiles, Apply, L.Apply, L.Exclusive, L.Enabled;
    OwnStep(w, n, act);
    ActClean(w, n, act);
    StagingPaths(w, n);
    ActFits(w, n, act);
    if L.Exclusive(ActPhase(w, n, act)) && ActCheck(w, n, act).step != Done(true) { ActStage(w, n, act); }
    ActCompared(w, n, act);
  }

  lemma SamePubs(w: World, e: Event)
    requires Inv(w) && Enabled(w, e)
    ensures Apply(w, e).life.pubs.Keys == Apply(w, e).checks.Keys
  {
    hide L.Inv, Tracked, FilesAfter, ActCheck, ActPhase, L.Enabled, L.Apply, CanLease, StagesClean, TempsOk, CanTemp;
    LifePubs(w, e);
  }

  /** The publication that a step begins. */
  lemma BegunOk(w: World, e: Event, n: nat)
    requires Inv(w) && Enabled(w, e) && n !in w.life.pubs && n in Apply(w, e).life.pubs
    ensures n in Apply(w, e).checks && Tracked(w.env, Apply(w, e).files, Apply(w, e).life.pubs[n], Apply(w, e).checks[n])
  {
    hide L.Inv, FilesAfter, ActCheck, ActPhase, L.Enabled, L.Apply, CanLease, AllTracked, StagesClean, TempsOk, CanTemp;
    LifePubs(w, e);
  }

  /** Every step keeps each comparison true of the directories it compares. */
  lemma StepInv(w: World, e: Event)
    requires Inv(w) && Enabled(w, e)
    ensures Inv(Apply(w, e))
  {
    hide L.Inv, Tracked, Can, FilesAfter, ChecksAfter, TempsAfter, StagesClean, TempsOk, L.Apply;
    L.StepInv(w.life, LifeOf(w, e));
    StagesStayClean(w, e);
    TempsStay(w, e);
    SameKeys(w, e);
    SamePubs(w, e);
    var u := Apply(w, e);
    forall n | n in u.life.pubs
      ensures Tracked(u.env, u.files, u.life.pubs[n], u.checks[n])
    {
      if n !in w.life.pubs { BegunOk(w, e, n); }
      else if Mine(e, n) { OwnOk(w, n, e.act); }
      else { NotEnded(w, e, n); OtherOk(w, e, n); }
    }
  }

  /** No step puts a temporary name into a stage. */
  lemma StagesStayClean(w: World, e: Event)
    requires Inv(w) && Enabled(w, e)
    ensures StagesClean(w.env, Apply(w, e).files)
  {
    hide Inv, L.Collects, L.Enabled, L.Apply, ChecksAfter, Clean, CanDo, ActFiles, SameBinaries, HeldBy, Spared;
    LifeInv(w);
    if e.Do? {
      DoIsKnown(w, e.n, e.act);
      StagingPaths(w, e.n);
      forall p | p in ActFiles(w, e.n, e.act) && w.env.staging(p)
        ensures p in w.files && ActFiles(w, e.n, e.act)[p] == w.files[p]
      {
        DoStaging(w, e.n, e.act, p);
      }
    }
  }

  lemma DoStaging(w: World, n: nat, act: Act, p: Path)
    requires CanDo(w, n, act) && p in ActFiles(w, n, act) && p != w.life.pubs[n].final
    ensures p in w.files && ActFiles(w, n, act)[p] == w.files[p]
  {
  }

  /** Temporary files stay with the readers that made them. */
  lemma TempsStay(w: World, e: Event)
    requires Inv(w) && Enabled(w, e)
    ensures var u := Apply(w, e); TempsOk(w.env, u.life.leases, u.files, u.temps)
  {
    hide Inv, Enabled, Apply, TempOk;
    var u := Apply(w, e);
    forall spot | spot in u.temps
      ensures TempOk(w.env, u.life.leases, u.files, spot, u.temps[spot])
    {
      if Touches(e, spot.path, spot.name) { MadeTemp(w, e); } else { OldTemp(w, e, spot); }
    }
  }

  lemma MadeTemp(w: World, e: Event)
    requires Inv(w) && Enabled(w, e) && e.Temp? && Spot(e.path, e.name) in Apply(w, e).temps
    ensures var u, spot := Apply(w, e), Spot(e.path, e.name); TempOk(w.env, u.life.leases, u.files, spot, u.temps[spot])
  {
    hide Inv, L.Enabled, L.Apply, P.Binary, ChecksAfter;
    LeaseStays(w, e, L.Reader(e.r), e.path);
  }

  lemma OldTemp(w: World, e: Event, spot: Spot)
    requires Inv(w) && Enabled(w, e) && spot in Apply(w, e).temps && !Touches(e, spot.path, spot.name)
    ensures var u := Apply(w, e); TempOk(w.env, u.life.leases, u.files, spot, u.temps[spot])
  {
    hide Inv, Enabled, Apply, P.Binary, HeldBy;
    SameTemp(w, e, spot);
    TempIsThere(w, spot);
    LeaseStays(w, e, L.Reader(w.temps[spot]), spot.path);
    HeldEntry(w, e, L.Reader(w.temps[spot]), spot.path, spot.name);
  }

  lemma SameTemp(w: World, e: Event, spot: Spot)
    requires Enabled(w, e) && spot in Apply(w, e).temps && !Touches(e, spot.path, spot.name)
    ensures spot in w.temps && Apply(w, e).temps[spot] == w.temps[spot] && e != ReturnOf(L.Reader(w.temps[spot]))
  {
    hide L.Enabled, L.Apply, ChecksAfter, FilesAfter, CanDo;
    assert spot == Spot(spot.path, spot.name);
  }

  lemma NotEnded(w: World, e: Event, n: nat)
    requires Enabled(w, e) && n in Apply(w, e).life.pubs
    ensures e != End(n)
  {
    hide L.Apply, L.Enabled, FilesAfter, ChecksAfter, CanLease, CanDo;
    LifePubs(w, e);
  }

  // Runs.

  ghost predicate Feasible(w: World, events: seq<Event>)
    decreases |events|
  {
    events == [] || (Enabled(w, events[0]) && Feasible(Apply(w, events[0]), events[1..]))
  }

  ghost function After(w: World, events: seq<Event>): World
    requires Feasible(w, events)
    decreases |events|
  {
    if events == [] then w else After(Apply(w, events[0]), events[1..])
  }

  lemma {:induction false} RunInv(w: World, events: seq<Event>)
    requires Inv(w) && Feasible(w, events)
    ensures Inv(After(w, events)) && After(w, events).env == w.env
    decreases |events|
  {
    hide Inv, Enabled;
    if events != [] {
      StepInv(w, events[0]);
      RunInv(Apply(w, events[0]), events[1..]);
    }
  }

  ghost function LifeRun(w: World, events: seq<Event>): seq<L.Event>
    requires Feasible(w, events)
    decreases |events|
  {
    if events == [] then [] else [LifeOf(w, events[0])] + LifeRun(Apply(w, events[0]), events[1..])
  }

  /** Every run is a run of the lifecycle, so whatever holds of those holds here. */
  lemma {:induction false} RunRefines(w: World, events: seq<Event>)
    requires Feasible(w, events)
    ensures L.Feasible(w.life, LifeRun(w, events)) && L.After(w.life, LifeRun(w, events)) == After(w, events).life
    decreases |events|
  {
    hide Can, FilesAfter, ChecksAfter, TempsAfter, LifeOf, L.Enabled, L.Apply;
    if events != [] {
      var e, u := LifeOf(w, events[0]), Apply(w, events[0]);
      RunRefines(u, events[1..]);
      assert LifeRun(w, events)[1..] == LifeRun(u, events[1..]);
    }
  }

  /** The step that ends a lease. */
  function ReturnOf(h: L.Holder): Event {
    match h
    case Reader(r) => Plain(L.Release(r))
    case Publisher(n) => End(n)
  }

  lemma LeaseStays(w: World, e: Event, h: L.Holder, p: Path)
    requires Inv(w) && Enabled(w, e) && HeldBy(w.life.leases, h, p) && e != ReturnOf(h)
    ensures HeldBy(Apply(w, e).life.leases, h, p)
  {
    hide Inv, L.Apply, FilesAfter, ChecksAfter, TempsAfter, Spared, Writable, CanTemp, StagesClean;
    LifeInv(w);
    if e.Begin? { NotHolding(w.life, e.n); }
    LifeLeaseStays(w.life, LifeOf(w, e), h);
  }

  lemma NotHolding(life: L.World, n: nat)
    requires L.Inv(life) && n !in life.pubs
    ensures L.Publisher(n) !in life.leases
  {
    hide L.AllCounted, L.AllPinned, L.AllFlagged;
  }

  lemma LifeLeaseStays(life: L.World, e: L.Event, h: L.Holder)
    requires L.Enabled(life, e) && h in life.leases
    requires !(e.Release? && h == L.Reader(e.n)) && !((e.End? || e.Begin?) && h == L.Publisher(e.n))
    ensures h in L.Apply(life, e).leases && L.Apply(life, e).leases[h] == life.leases[h]
  {
    hide L.Flag, CanLease, CanWatch, L.Collects, Acquired, Dropped, L.Bumped;
  }

  /** The binaries that a run links into a directory. */
  ghost function Linked(w: World, events: seq<Event>, p: Path): set<P.Name>
    requires Feasible(w, events)
    decreases |events|
  {
    if events == [] then {} else LinkedBy(w, events[0], p) + Linked(Apply(w, events[0]), events[1..], p)
  }

  /**
   A generation is immutable to whoever holds it: through any run in which the lease is not
   returned, no binary in it that is nobody's temporary file changes or goes away, and the
   new ones are exactly those linked into it.
   */
  lemma {:induction false} HeldGenerationIsImmutable(w: World, events: seq<Event>, h: L.Holder, p: Path)
    requires Inv(w) && Feasible(w, events) && ReturnOf(h) !in events
    requires HeldBy(w.life.leases, h, p) && !w.env.staging(p) && p in w.files
    ensures var u := After(w, events);
            && HeldBy(u.life.leases, h, p) && p in u.files
            && Grows(FixedAt(w, p), FixedAt(u, p), Linked(w, events, p)) && FixedAt(w, p).Keys !! Linked(w, events, p)
    decreases |events|
  {
    hide Inv, Enabled, Apply, LinkedBy, HeldBy, FixedAt;
    if events != [] {
      var e, u := events[0], Apply(w, events[0]);
      assert e in events;
      HeldKeeps(w, e, h, p);
      LinkedIsNew(w, e, p);
      LeaseStays(w, e, h, p);
      StepInv(w, e);
      SameEnv(w, e);
      HeldGenerationIsImmutable(u, events[1..], h, p);
    }
  }

  lemma LinkedIsNew(w: World, e: Event, p: Path)
    requires p in w.files
    ensures FixedAt(w, p).Keys !! LinkedBy(w, e, p)
  {
    hide P.Binary, TempNames;
  }

  lemma SameEnv(w: World, e: Event)
    requires Enabled(w, e)
    ensures Apply(w, e).env == w.env && (!e.Temp? ==> Apply(w, e).temps == w.temps)
  {
  }

  lemma LinkedNow(w: World, e: Event, p: Path, name: P.Name)
    requires Inv(w) && Enabled(w, e) && name in LinkedBy(w, e, p)
    ensures var u := Apply(w, e); p in u.files && name in FixedAt(u, p) && FixedAt(u, p)[name].Regular?
  {
    hide Inv, L.Enabled, L.Apply, ChecksAfter, P.Binary, FixedAt;
    if Spot(p, name) in w.temps { TempIsThere(w, Spot(p, name)); }
    FixedEntry(Apply(w, e), p, name);
  }

  /** What is linked into a held generation is a regular file in it from then on. */
  lemma {:induction false} LinkedIsThere(w: World, events: seq<Event>, h: L.Holder, p: Path, name: P.Name)
    requires Inv(w) && Feasible(w, events) && ReturnOf(h) !in events
    requires HeldBy(w.life.leases, h, p) && !w.env.staging(p) && p in w.files && name in Linked(w, events, p)
    ensures var u := After(w, events); p in u.files && name in FixedAt(u, p) && FixedAt(u, p)[name].Regular?
    decreases |events|
  {
    hide Inv, Enabled, Apply, LinkedBy, HeldBy, FixedAt;
    var e, u := events[0], Apply(w, events[0]);
    assert e in events;
    HeldKeeps(w, e, h, p);
    LeaseStays(w, e, h, p);
    StepInv(w, e);
    SameEnv(w, e);
    if name in LinkedBy(w, e, p) {
      LinkedNow(w, e, p, name);
      HeldGenerationIsImmutable(u, events[1..], h, p);
    } else {
      LinkedIsThere(u, events[1..], h, p, name);
    }
  }

  // One publication over a run.

  /** How one step may move a publication past its mark. */
  lemma OneStep(w: World, e: Event, n: nat)
    requires Inv(w) && Enabled(w, e) && n in w.life.pubs && w.life.pubs[n].phase != L.Begun && e != End(n)
    ensures var u := Apply(w, e);
            && n in u.life.pubs && u.life.pubs[n] == w.life.pubs[n].(phase := u.life.pubs[n].phase) && u.life.pubs[n].phase != L.Begun
            && n in u.checks && u.checks[n].staged == w.checks[n].staged
  {
    hide Inv, Apply, FilesAfter, ChecksAfter, Equal, L.Enabled, L.Apply, Compared;
    Track(w, n);
    if Mine(e, n) { OwnStep(w, n, e.act); } else { OthersStay(w, e, n); }
  }

  lemma {:induction false} OnePublication(w: World, events: seq<Event>, n: nat)
    requires Inv(w) && Feasible(w, events) && n in w.life.pubs && w.life.pubs[n].phase != L.Begun && End(n) !in events
    ensures var u := After(w, events);
            && n in w.checks && n in u.life.pubs && u.life.pubs[n] == w.life.pubs[n].(phase := u.life.pubs[n].phase)
            && n in u.checks && u.checks[n].staged == w.checks[n].staged
    decreases |events|
  {
    hide Enabled, Apply, L.Inv, Tracked, StagesClean, TempsOk;
    if events != [] {
      assert events[0] in events;
      OneStep(w, events[0], n);
      StepInv(w, events[0]);
      OnePublication(Apply(w, events[0]), events[1..], n);
    }
  }

  /**
   What publishing a generation gives, whatever interleaves with it. From the mark on, at
   every point of every run: if it has reported success, every binary that was staged is in
   the destination with its bytes, or clashes with the file there; until then, the stage is
   as it was.
   */
  lemma Publishes(w: World, events: seq<Event>, n: nat)
    requires Inv(w) && L.At(w.life.pubs, n, L.Marked) && Feasible(w, events) && End(n) !in events
    ensures var u, stage, final := After(w, events), w.life.pubs[n].stage, w.life.pubs[n].final;
            && n in u.life.pubs && n in u.checks
            && (u.checks[n].step == Done(true) ==>
                  && stage in w.files && final in u.files
                  && forall name :: name in w.files[stage] && P.Binary(name) && w.files[stage][name].Regular? ==>
                       && name in u.files[final]
                       && (u.files[final][name] == w.files[stage][name] || P.Clash(w.env.digest, w.files[stage][name], u.files[final][name])))
            && (u.checks[n].step != Done(true) && L.Exclusive(u.life.pubs[n].phase) ==> EntriesAt(u.files, stage) == EntriesAt(w.files, stage))
  {
    hide Inv, Feasible, After, P.Binary, P.SameFile;
    Track(w, n);
    RunInv(w, events);
    OnePublication(w, events, n);
    Track(After(w, events), n);
  }

  /** Two publishers that both succeeded on one destination staged the same files under the names both staged. */
  lemma PublishersAgree(w: World, m: nat, n: nat, name: P.Name)
    requires Inv(w) && m in w.life.pubs && n in w.life.pubs && w.life.pubs[m].final == w.life.pubs[n].final
    requires w.checks[m].step == Done(true) && w.checks[n].step == Done(true)
    ensures w.checks[m].staged.Some? && w.checks[n].staged.Some?
    ensures var a, b := w.checks[m].staged.value, w.checks[n].staged.value;
            name in a && name in b && P.Binary(name) && a[name].Regular? && b[name].Regular? ==> P.SameFile(w.env.digest, a[name], b[name])
  {
    hide L.Inv, P.Binary;
    Track(w, m);
    Track(w, n);
  }

  // What a success means for the destination.

  /** The destination was listed as `listed`, or the comparison is over. */
  predicate Listed(step: Step, listed: set<P.Name>) {
    step.Mismatch? || step.Done? || (step.FinalSide? && step.listed == listed)
  }

  lemma ListingStays(w: World, e: Event, n: nat, listed: set<P.Name>)
    requires Inv(w) && Enabled(w, e) && n in w.life.pubs && e != End(n) && Listed(w.checks[n].step, listed)
    ensures n in Apply(w, e).life.pubs && n in Apply(w, e).checks && Listed(Apply(w, e).checks[n].step, listed)
  {
    hide Inv, Apply, ActFiles, ActPhase, Equal, L.Enabled, L.Apply, Compared;
    Track(w, n);
    if Mine(e, n) { OwnStep(w, n, e.act); } else { OthersStay(w, e, n); }
  }

  lemma {:induction false} ListedOnce(w: World, events: seq<Event>, n: nat, listed: set<P.Name>)
    requires Inv(w) && Feasible(w, events) && n in w.life.pubs && End(n) !in events && Listed(w.checks[n].step, listed)
    ensures n in After(w, events).checks && Listed(After(w, events).checks[n].step, listed)
    decreases |events|
  {
    hide Enabled, Apply, L.Inv, Tracked, Listed, StagesClean, TempsOk;
    if events != [] {
      assert events[0] in events;
      ListingStays(w, events[0], n, listed);
      StepInv(w, events[0]);
      ListedOnce(Apply(w, events[0]), events[1..], n, listed);
    }
  }

  /** The binaries of two directories that compared equal in both directions have the same names. */
  lemma SameNames(digest: seq<bv8> -> P.Digest, staged: Entries, listed: Entries, last: Entries)
    requires AllSame(digest, staged, listed, staged.Keys) && AllSame(digest, staged, last, listed.Keys)
    ensures BinaryNames(staged) == BinaryNames(listed)
  {
    hide P.SameFile, P.Hint, P.Binary;
    forall name | P.Binary(name)
      ensures name in staged <==> name in listed
    {
      P.HintsAreNotBinary(name);
      assert name in staged ==> P.SameAt(digest, staged, listed, name);
      assert name in listed ==> P.SameAt(digest, staged, last, name);
    }
  }

  /**
   A publication that found its destination there and succeeds leaves it with exactly the
   staged names of binaries if and only if nothing was linked into it after it was listed
   and no temporary binary is in it at the discard; and with exactly the staged binaries,
   where no two files of one name clash.
   */
  lemma DuplicateIsExact(w: World, events: seq<Event>, n: nat)
    requires Inv(w) && Enabled(w, Do(n, ListFinal)) && Feasible(Apply(w, Do(n, ListFinal)), events) && End(n) !in events
    requires Enabled(After(Apply(w, Do(n, ListFinal)), events), Do(n, Discard))
    ensures var start, stage, final := Apply(w, Do(n, ListFinal)), w.life.pubs[n].stage, w.life.pubs[n].final;
            var last := After(start, events);
            var u, alone := Apply(last, Do(n, Discard)), Linked(start, events, final) == {} && TempNames(last.temps, final) == {};
            && stage in w.files && stage !in u.files && final in u.files
            && (BinaryNames(u.files[final]) == BinaryNames(w.files[stage]) <==> alone)
            && (P.NoClash(w.env.digest, w.files[stage], u.files[final]) ==>
                  (P.Binaries(u.files[final]) == P.Binaries(w.files[stage]) <==> alone))
  {
    hide Inv, Enabled, Feasible, After, Linked, P.Binary, P.Binaries, P.NoClash, BinaryNames, TempNames, FixedAt, Apply, Compared, L.Exclusive, Clean;
    ListFinalStep(w, n);
    var start, p := Apply(w, Do(n, ListFinal)), w.life.pubs[n];
    StepInv(w, Do(n, ListFinal));
    RunInv(start, events);
    LifeInv(start);
    StageHeld(start.life, n);
    HeldGenerationIsImmutable(start, events, L.Publisher(n), p.final);
    OnePublication(start, events, n);
    ListedOnce(start, events, n, w.files[p.final].Keys);
    var last := After(start, events);
    DiscardStep(last, n);
    SameNames(w.env.digest, w.files[p.stage], w.files[p.final], last.files[p.final]);
    NoTempListed(start, p.final, w.files[p.stage]);
    var linked, temps := Linked(start, events, p.final), TempNames(last.temps, p.final);
    forall name | name in linked + temps
      ensures name in last.files[p.final] && last.files[p.final][name].Regular?
    {
      if name in linked { LinkedIsThere(start, events, L.Publisher(n), p.final, name); FixedEntry(last, p.final, name); }
      else { TempRegular(last, p.final, name); }
    }
    FixedAndTemps(last, p.final);
    StagedIsNoTemp(last, p.final, w.files[p.stage]);
    assert linked + temps == {} <==> linked == {} && temps == {};
    ExtraBinaries(w.env.digest, w.files[p.stage], last.files[p.final], linked + temps);
  }

  lemma TempRegular(w: World, p: Path, name: P.Name)
    requires Inv(w) && name in TempNames(w.temps, p)
    ensures p in w.files && name in w.files[p] && w.files[p][name].Regular? && P.Binary(name) && w.env.temporary(name)
  {
    hide Inv, P.Binary;
    TempName(w.temps, p, name);
    TempIsThere(w, Spot(p, name));
  }

  /** The binaries of a directory are the fixed ones and the temporary ones. */
  lemma FixedAndTemps(w: World, p: Path)
    requires Inv(w) && p in w.files
    ensures BinaryNames(w.files[p]) == FixedAt(w, p).Keys + TempNames(w.temps, p) && FixedAt(w, p).Keys !! TempNames(w.temps, p)
  {
    hide Inv, P.Binary, TempNames, FixedAt;
    forall name
      ensures name in BinaryNames(w.files[p]) <==> name in FixedAt(w, p) || name in TempNames(w.temps, p)
      ensures !(name in FixedAt(w, p) && name in TempNames(w.temps, p))
    {
      FixedEntry(w, p, name);
      TempName(w.temps, p, name);
      if name in TempNames(w.temps, p) { TempRegular(w, p, name); }
    }
  }

  lemma StagedIsNoTemp(w: World, p: Path, staged: Entries)
    requires Inv(w) && Clean(w.env, staged)
    ensures TempNames(w.temps, p) !! staged.Keys && TempNames(w.temps, p) !! BinaryNames(staged)
  {
    hide Inv, P.Binary, TempNames;
    forall name | name in TempNames(w.temps, p)
      ensures name !in staged
    {
      TempRegular(w, p, name);
    }
  }

  /** A directory with just the staged names has no temporary file. */
  lemma NoTempListed(w: World, p: Path, staged: Entries)
    requires Inv(w) && p in w.files && Clean(w.env, staged) && BinaryNames(w.files[p]) == BinaryNames(staged)
    ensures FixedAt(w, p).Keys == BinaryNames(staged)
  {
    hide Inv, Clean, P.Binary, TempNames, FixedAt, BinaryNames;
    FixedAndTemps(w, p);
    StagedIsNoTemp(w, p, staged);
    var fixed, temps := FixedAt(w, p).Keys, TempNames(w.temps, p);
    assert temps * (fixed + temps) == temps;
  }

  /** With every staged binary delivered, the directories hold the same binaries exactly when nothing else is there. */
  lemma ExtraBinaries(digest: seq<bv8> -> P.Digest, staged: Entries, final: Entries, more: set<P.Name>)
    requires AllSame(digest, staged, final, staged.Keys) && BinaryNames(final) == BinaryNames(staged) + more && BinaryNames(staged) !! more
    requires forall name :: name in more ==> name in final && final[name].Regular?
    ensures BinaryNames(final) == BinaryNames(staged) <==> more == {}
    ensures P.NoClash(digest, staged, final) ==> (P.Binaries(final) == P.Binaries(staged) <==> more == {})
  {
    hide P.Hint, P.Binary;
    forall name | name in staged && P.Binary(name)
      ensures name in final && P.SameFile(digest, staged[name], final[name])
    {
      P.HintsAreNotBinary(name);
      assert P.SameAt(digest, staged, final, name);
    }
    if more != {} {
      var name :| name in more;
      assert name in BinaryNames(final) && name !in BinaryNames(staged);
      assert name in P.Binaries(final) && name !in P.Binaries(staged);
    } else {
      assert BinaryNames(final) == BinaryNames(staged);
      forall name | P.Binary(name) && name in final
        ensures name in staged
      {
        assert name in BinaryNames(final);
      }
    }
  }

  lemma ListFinalStep(w: World, n: nat)
    requires Inv(w) && Enabled(w, Do(n, ListFinal))
    ensures n in w.life.pubs && n in w.checks && w.life.pubs[n].final in w.files && w.life.pubs[n].stage in w.files
    ensures !w.env.staging(w.life.pubs[n].final) && w.life.pubs[n].phase == L.Comparing
    ensures w.checks[n].staged == Some(w.files[w.life.pubs[n].stage]) && Clean(w.env, w.files[w.life.pubs[n].stage])
    ensures var start, p := Apply(w, Do(n, ListFinal)), w.life.pubs[n];
            && start.files == w.files && start.temps == w.temps && start.env == w.env && n in start.life.pubs && start.life.pubs[n] == p && n in start.checks
            && start.checks[n].staged == w.checks[n].staged && Listed(start.checks[n].step, w.files[p.final].Keys)
            && AllSame(w.env.digest, w.files[p.stage], w.files[p.final], w.files[p.stage].Keys)
  {
    hide Inv, Apply, AllSame, Delivered, Clean, L.Enabled;
    Track(w, n);
    OwnStep(w, n, ListFinal);
    SameEnv(w, Do(n, ListFinal));
    var staged := w.files[w.life.pubs[n].stage];
    assert staged.Keys - {} == staged.Keys;
  }

  lemma DiscardStep(w: World, n: nat)
    requires Inv(w) && Enabled(w, Do(n, Discard))
    ensures n in w.life.pubs && n in w.checks && w.checks[n].step.FinalSide? && w.checks[n].staged.Some? && w.life.pubs[n].final in w.files
    ensures var u, p := Apply(w, Do(n, Discard)), w.life.pubs[n];
            && p.stage !in u.files && p.final in u.files && u.files[p.final] == w.files[p.final]
            && AllSame(w.env.digest, w.checks[n].staged.value, w.files[p.final], w.checks[n].step.listed)
            && AllSame(w.env.digest, w.checks[n].staged.value, w.files[p.final], w.checks[n].staged.value.Keys)
            && n in u.checks && u.checks[n].step == Done(true) && w.checks[n].staged == EntriesAt(w.files, p.stage)
  {
    hide Inv, Apply, AllSame, Delivered, L.Enabled;
    Track(w, n);
    OwnStep(w, n, Discard);
    var listed := w.checks[n].step.listed;
    assert listed - {} == listed;
  }

  const INDEX := P.Name("integrity_index_v3.bin")

  lemma IndexIsBinary()
    ensures P.Binary(INDEX)
  {
    assert INDEX.text[|INDEX.text| - 4..] == ".bin";
  }

  /** A write moves nothing but the contents of its directory. */
  lemma WriteStep(w: World, e: Event)
    requires Inv(w) && Can(w, e) && (e.Write? || e.Temp? || e.Link?)
    ensures Enabled(w, e) && Inv(Apply(w, e))
    ensures var u := Apply(w, e);
            && u.env == w.env && u.checks == w.checks && u.life.pubs == w.life.pubs && u.life.leases == w.life.leases && u.files == FilesAfter(w, e)
  {
    hide Inv, FilesAfter, Writable, CanTemp, HeldBy;
    CanIsEnabled(w, e);
    StepInv(w, e);
  }

  /** How a reader of a generation gets its integrity index: a temporary file beside it, the link, and the temporary file removed. */
  function IndexBuilt(p: Path, before: Entries, r: nat, temp: P.Name, bytes: seq<bv8>, info: L.Dir): seq<Event> {
    var with := before[temp := P.Regular(bytes)];
    [Write(r, p, with, info), Link(p, INDEX, bytes, info), Write(r, p, with[INDEX := P.Regular(bytes)] - {temp}, info)]
  }

  lemma IndexWritten(w: World, p: Path, r: nat, temp: P.Name, bytes: seq<bv8>, info: L.Dir)
    requires Inv(w) && HeldBy(w.life.leases, L.Reader(r), p) && !w.env.staging(p)
    requires p in w.files && INDEX !in w.files[p] && !P.Binary(temp)
    ensures var events := IndexBuilt(p, w.files[p], r, temp, bytes, info);
            && Feasible(w, events)
            && var u := After(w, events);
            && Inv(u) && u.life.pubs == w.life.pubs && u.checks == w.checks && p in u.files && INDEX in u.files[p]
  {
    hide Inv, Enabled, Apply, P.Binary, HeldBy, Feasible, After, Writable;
    IndexIsBinary();
    var a, node := w.files[p], P.Regular(bytes);
    var with := a[temp := node];
    var first, link, last := Write(r, p, with, info), Link(p, INDEX, bytes, info), Write(r, p, with[INDEX := node] - {temp}, info);
    CanPut(w.env, p, a, temp, node);
    WriteStep(w, first);
    var w1 := Apply(w, first);
    WriteStep(w1, link);
    var w2 := Apply(w1, link);
    CanPut(w.env, p, with[INDEX := node], temp, node);
    WriteStep(w2, last);
    ThreeSteps(w, first, link, last);
  }

  lemma CanPut(env: Env, p: Path, a: Entries, name: P.Name, node: P.Node)
    requires !P.Binary(name) && !env.staging(p)
    ensures Writable(env, p, Some(a), a[name := node]) && Writable(env, p, Some(a), a - {name})
  {
    hide P.Binary;
  }

  lemma First(w: World, e: Event, rest: seq<Event>)
    requires Enabled(w, e) && Feasible(Apply(w, e), rest)
    ensures Feasible(w, [e] + rest) && After(w, [e] + rest) == After(Apply(w, e), rest)
  {
    hide Enabled, Apply;
    assert ([e] + rest)[1..] == rest;
  }

  lemma ThreeSteps(w: World, a: Event, b: Event, c: Event)
    requires Enabled(w, a) && Enabled(Apply(w, a), b) && Enabled(Apply(Apply(w, a), b), c)
    ensures Feasible(w, [a, b, c]) && After(w, [a, b, c]) == Apply(Apply(Apply(w, a), b), c)
  {
    hide Enabled, Apply;
    var w1 := Apply(w, a);
    var w2 := Apply(w1, b);
    First(w2, c, []);
    First(w1, b, [c] + []);
    First(w, a, [b] + ([c] + []));
    assert [a] + ([b] + ([c] + [])) == [a, b, c];
  }

  /**
   Such runs exist from every world where a comparison has just ended: a reader of the
   destination builds and links its integrity index, and the publication still succeeds.
   */
  lemma IndexLinkedMeanwhile(w: World, n: nat, r: nat, temp: P.Name, bytes: seq<bv8>, info: L.Dir)
    requires Inv(w) && Can(w, Do(n, Discard)) && !P.Binary(temp)
    requires HeldBy(w.life.leases, L.Reader(r), w.life.pubs[n].final)
    requires w.life.pubs[n].final in w.files && INDEX !in w.files[w.life.pubs[n].final]
    ensures var stage, final := w.life.pubs[n].stage, w.life.pubs[n].final;
            && Feasible(w, IndexBuilt(final, w.files[final], r, temp, bytes, info))
            && var last := After(w, IndexBuilt(final, w.files[final], r, temp, bytes, info));
            && Enabled(last, Do(n, Discard))
            && var u := Apply(last, Do(n, Discard));
            && n in u.checks && u.checks[n].step == Done(true) && stage in w.files && final in u.files
            && INDEX in u.files[final] && INDEX !in w.files[stage]
  {
    hide Inv, Enabled, Apply, Feasible, After, P.Binary, AllSame, L.Enabled, LifeOf, HeldBy;
    var final := w.life.pubs[n].final;
    CanIsEnabled(w, Do(n, Discard));
    StagingPaths(w, n);
    IndexIsBinary();
    NotStaged(w, n, INDEX);
    IndexWritten(w, final, r, temp, bytes, info);
    var last := After(w, IndexBuilt(final, w.files[final], r, temp, bytes, info));
    CanIsEnabled(last, Do(n, Discard));
    DiscardStep(last, n);
  }

  /**
   A second kind of such runs: a reader of the destination begins to rebuild an MDU there,
   and nothing is linked, but its temporary file is a binary that was not staged.
   */
  lemma ReconstructionMeanwhile(w: World, n: nat, r: nat, temp: P.Name, bytes: seq<bv8>, info: L.Dir)
    requires Inv(w) && Can(w, Do(n, Discard)) && P.Binary(temp) && w.env.temporary(temp)
    requires HeldBy(w.life.leases, L.Reader(r), w.life.pubs[n].final)
    requires w.life.pubs[n].final in w.files && temp !in w.files[w.life.pubs[n].final]
    ensures var stage, final := w.life.pubs[n].stage, w.life.pubs[n].final;
            var make := Temp(r, final, temp, Some(bytes), info);
            && Enabled(w, make) && LinkedBy(w, make, final) == {} && Enabled(Apply(w, make), Do(n, Discard))
            && var u := Apply(Apply(w, make), Do(n, Discard));
            && n in u.checks && u.checks[n].step == Done(true) && stage in w.files && final in u.files
            && temp in u.files[final] && temp !in w.files[stage]
  {
    hide Inv, Enabled, Apply, P.Binary, AllSame, L.Enabled, LifeOf, HeldBy;
    var make := Temp(r, w.life.pubs[n].final, temp, Some(bytes), info);
    CanIsEnabled(w, Do(n, Discard));
    StagingPaths(w, n);
    NotStaged(w, n, temp);
    WriteStep(w, make);
    CanIsEnabled(Apply(w, make), Do(n, Discard));
    DiscardStep(Apply(w, make), n);
  }

  /** A binary that a compared destination lacks was not staged. */
  lemma NotStaged(w: World, n: nat, name: P.Name)
    requires Inv(w) && Enabled(w, Do(n, Discard)) && n in w.life.pubs && P.Binary(name)
    requires w.life.pubs[n].final in w.files ==> name !in w.files[w.life.pubs[n].final]
    ensures w.life.pubs[n].stage in w.files && name !in w.files[w.life.pubs[n].stage]
  {
    hide Inv, Enabled, Apply, P.SameFile, P.Hint, P.Binary;
    DiscardStep(w, n);
    P.HintsAreNotBinary(name);
    var staged := w.checks[n].staged.value;
    assert name in staged ==> P.SameAt(w.env.digest, staged, w.files[w.life.pubs[n].final], name);
  }

  /** An entry that cannot compare equal to any staged one. */
  predicate Foreign(name: P.Name, staged: Option<Entries>) {
    !P.Hint(name) && (!P.Binary(name) || staged.None? || name !in staged.value)
  }

  /** Such an entry is still to be compared, or the publication is lost. */
  predicate Doomed(c: Check, name: P.Name) {
    && Foreign(name, c.staged)
    && (c.step.Mismatch? || c.step == Done(false) || (c.step.FinalSide? && name in c.step.todo))
  }

  lemma DoomedStays(w: World, e: Event, n: nat, name: P.Name)
    requires Inv(w) && Enabled(w, e) && n in w.life.pubs && e != End(n) && Doomed(w.checks[n], name)
    ensures n in Apply(w, e).life.pubs && n in Apply(w, e).checks && Doomed(Apply(w, e).checks[n], name)
  {
    hide Inv, Apply, ActFiles, ActPhase, L.Enabled, L.Apply, Compared, Clean, P.Hint, P.Binary, P.SameFile;
    Track(w, n);
    if Mine(e, n) { OwnStep(w, n, e.act); } else { OthersStay(w, e, n); }
  }

  lemma {:induction false} DoomedRun(w: World, events: seq<Event>, n: nat, name: P.Name)
    requires Inv(w) && Feasible(w, events) && n in w.life.pubs && End(n) !in events && Doomed(w.checks[n], name)
    ensures n in After(w, events).checks && Doomed(After(w, events).checks[n], name)
    decreases |events|
  {
    hide Enabled, Apply, L.Inv, Tracked, Doomed, StagesClean, TempsOk;
    if events != [] {
      assert events[0] in events;
      DoomedStays(w, events[0], n, name);
      StepInv(w, events[0]);
      DoomedRun(Apply(w, events[0]), events[1..], n, name);
    }
  }

  /**
   Any entry of the listed destination that is no hint and no staged binary refuses the
   publication, a temporary file of either kind included.
   */
  lemma TemporaryFileRefuses(w: World, events: seq<Event>, n: nat, name: P.Name)
    requires Inv(w) && Enabled(w, Do(n, ListFinal)) && Feasible(Apply(w, Do(n, ListFinal)), events) && End(n) !in events
    requires name in w.files[w.life.pubs[n].final] && Foreign(name, EntriesAt(w.files, w.life.pubs[n].stage))
    ensures var u := After(Apply(w, Do(n, ListFinal)), events); n in u.checks && u.checks[n].step != Done(true)
  {
    hide Inv, Foreign, Apply, L.Enabled, Feasible, After, Compared, Clean;
    Track(w, n);
    OwnStep(w, n, ListFinal);
    StepInv(w, Do(n, ListFinal));
    DoomedRun(Apply(w, Do(n, ListFinal)), events, n, name);
  }

  // A refused publication.

  /** A publisher's own step that changes a directory is the one that publishes. */
  lemma OwnChange(w: World, n: nat, act: Act)
    requires Inv(w) && Enabled(w, Do(n, act))
    ensures var u := Apply(w, Do(n, act)); n in u.checks && ((u.files == w.files && u.life.dirs == w.life.dirs) || u.checks[n].step == Done(true))
  {
    hide Inv, CanDo, L.Enabled, L.Apply, ActPhase, ActFiles, ActCheck;
    LifeInv(w);
    OwnStep(w, n, act);
    DoKeys(w, n, act);
    OwnFiles(w, n, act);
  }

  lemma OwnFiles(w: World, n: nat, act: Act)
    requires CanDo(w, n, act)
    ensures ActFiles(w, n, act) == w.files || ActCheck(w, n, act).step == Done(true)
    ensures act.Discard? ==> ActCheck(w, n, act).step == Done(true)
  {
    hide Equal, L.RefsOf;
  }

  lemma PublishedStays(w: World, e: Event, n: nat)
    requires Inv(w) && Enabled(w, e) && n in w.life.pubs && e != End(n) && w.checks[n].step == Done(true)
    ensures n in Apply(w, e).life.pubs && n in Apply(w, e).checks && Apply(w, e).checks[n].step == Done(true)
  {
    hide Inv, Apply, ActFiles, ActPhase, Equal, L.Enabled, L.Apply, Compared;
    Track(w, n);
    if Mine(e, n) { OwnStep(w, n, e.act); } else { OthersStay(w, e, n); }
  }

  lemma {:induction false} PublishedRun(w: World, events: seq<Event>, n: nat)
    requires Inv(w) && Feasible(w, events) && n in w.life.pubs && End(n) !in events && w.checks[n].step == Done(true)
    ensures n in After(w, events).checks && After(w, events).checks[n].step == Done(true)
    decreases |events|
  {
    hide Enabled, Apply, L.Inv, Tracked, StagesClean, TempsOk;
    if events != [] {
      assert events[0] in events;
      PublishedStays(w, events[0], n);
      StepInv(w, events[0]);
      PublishedRun(Apply(w, events[0]), events[1..], n);
    }
  }

  /** None of a publisher's own steps in a run changes a directory. */
  ghost predicate ChangesNothing(w: World, events: seq<Event>, n: nat)
    requires Feasible(w, events)
    decreases |events|
  {
    events != [] ==>
      var u := Apply(w, events[0]);
      (Mine(events[0], n) ==> u.files == w.files && u.life.dirs == w.life.dirs) && ChangesNothing(u, events[1..], n)
  }

  /** A publication that has not succeeded has itself changed no directory. */
  lemma {:induction false} RefusedChangesNothing(w: World, events: seq<Event>, n: nat)
    requires Inv(w) && Feasible(w, events) && n in w.life.pubs && End(n) !in events
    requires n in After(w, events).checks && After(w, events).checks[n].step != Done(true)
    ensures ChangesNothing(w, events, n)
    decreases |events|
  {
    hide Enabled, Apply, L.Inv, Tracked, StagesClean, TempsOk;
    if events != [] {
      var e, u := events[0], Apply(w, events[0]);
      assert e in events;
      StepInv(w, e);
      PubStays(w, e, n);
      if u.checks[n].step == Done(true) { PublishedRun(u, events[1..], n); }
      if Mine(e, n) { OwnChange(w, n, e.act); }
      RefusedChangesNothing(u, events[1..], n);
    }
  }

  lemma PubStays(w: World, e: Event, n: nat)
    requires Inv(w) && Enabled(w, e) && n in w.life.pubs && e != End(n)
    ensures n in Apply(w, e).life.pubs && n in Apply(w, e).checks
  {
    hide Inv, Apply, Enabled, Tracked;
    Track(w, n);
    if Mine(e, n) { OwnStep(w, n, e.act); } else { OthersStay(w, e, n); }
  }
}
