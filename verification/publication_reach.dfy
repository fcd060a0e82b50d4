/**
 What publications can reach. That one reports success over a destination with an extra
 binary, from the start: two directories hold the same binary, a reader holds the second,
 and the first is published onto it while the reader links the integrity index, or has a
 temporary binary. And that one succeeds where it should: onto an absent destination and
 onto one that matches.
 */
module PublicationReach {
  import opened Wrappers
  import opened Lifecycle
  import opened PublicationRuns
  import L = LifecycleRuns
  import P = Publication

  /** Who takes part: publisher `n`, reader `r`, the two directories and their one binary. */
  datatype Cast = Cast(n: nat, r: nat, stage: Path, final: Path, name: P.Name, bytes: seq<bv8>)

  function Entry(x: Cast): Entries {
    map[x.name := P.Regular(x.bytes)]
  }

  ghost function Twins(env: Env, x: Cast, info: L.Dir): World {
    Init(env, map[x.stage := Entry(x), x.final := Entry(x)], map[x.stage := info, x.final := info], {})
  }

  /** The cast in the middle of the publication, both directories untouched. */
  ghost predicate Underway(w: World, x: Cast, ph: L.Phase, c: Check) {
    && Inv(w) && x.stage != x.final && P.Binary(x.name)
    && w.files == map[x.stage := Entry(x), x.final := Entry(x)]
    && w.life.leases == map[L.Reader(x.r) := {x.final}, L.Publisher(x.n) := {x.stage, x.final}]
    && x.n in w.life.pubs && w.life.pubs[x.n] == L.Publication(x.stage, x.final, ph)
    && x.n in w.checks && w.checks[x.n] == c
  }

  /** The first directory is a stage with an artifact in it, and the second is none. */
  ghost predicate Staged(env: Env, x: Cast) {
    env.staging(x.stage) && !env.staging(x.final) && P.Binary(x.name) && !env.temporary(x.name)
  }

  /** After the reader's lease. */
  ghost predicate Opened(w: World, env: Env, x: Cast) {
    && Inv(w) && w.env == env && w.files == map[x.stage := Entry(x), x.final := Entry(x)] && w.checks == map[]
    && w.life.pubs == map[] && w.life.locks == {} && w.life.leases == map[L.Reader(x.r) := {x.final}]
    && w.life.reg == Acquired(Registry(map[], map[]), {x.final}, LEASE)
  }

  lemma Opens(env: Env, x: Cast, info: L.Dir)
    requires Staged(env, x)
    ensures var w, lease := Twins(env, x, info), Plain(L.Lease(x.r, {x.final}));
            Enabled(w, lease) && Opened(Apply(w, lease), env, x)
  {
    hide Inv, P.Binary, Acquired, CanLease;
    var w, lease := Twins(env, x, info), Plain(L.Lease(x.r, {x.final}));
    InitInv(env, w.files, w.life.dirs, {});
    Vacant(x.stage, x.final);
    StepInv(w, lease);
  }

  lemma BeginsNext(w: World, env: Env, x: Cast)
    requires Staged(env, x) && Opened(w, env, x)
    ensures Enabled(w, Begin(x.n, x.stage, x.final))
    ensures var u := Apply(w, Begin(x.n, x.stage, x.final)); Underway(u, x, L.Begun, Check(None, Waiting)) && u.life.locks == {}
  {
    hide Inv, P.Binary, Acquired, CanLease;
    Vacant(x.stage, x.final);
    StepInv(w, Begin(x.n, x.stage, x.final));
  }

  lemma Begins(env: Env, x: Cast, info: L.Dir)
    requires Staged(env, x)
    ensures var w, lease, begin := Twins(env, x, info), Plain(L.Lease(x.r, {x.final})), Begin(x.n, x.stage, x.final);
            && Enabled(w, lease) && Enabled(Apply(w, lease), begin)
            && var u := Apply(Apply(w, lease), begin);
            Underway(u, x, L.Begun, Check(None, Waiting)) && u.life.locks == {}
  {
    hide Enabled, Apply, Opened, Underway, Staged, Twins;
    Opens(env, x, info);
    BeginsNext(Apply(Twins(env, x, info), Plain(L.Lease(x.r, {x.final}))), env, x);
  }

  lemma Vacant(stage: Path, final: Path)
    ensures CanLease(Registry(map[], map[]), {final}) && CanLease(Acquired(Registry(map[], map[]), {final}, LEASE), {stage, final})
  {
    var empty := Registry(map[], map[]);
    var next := Acquired(empty, {final}, LEASE);
    assert {final} - empty.uses.Keys == {final};
    assert next.uses.Keys == {final} && |next.uses| == |next.uses.Keys|;
    var more := {stage, final} - next.uses.Keys;
    assert more <= {stage};
    assert more == {} || more == {stage};
  }

  lemma DoLife(life: L.World, n: nat, act: Act)
    requires L.Enabled(life, ActLife(life, n, act))
    ensures L.Apply(life, ActLife(life, n, act)).leases == life.leases
    ensures !act.Lock? && !act.Unlock? ==> L.Apply(life, ActLife(life, n, act)).locks == life.locks
  {
    hide L.Apply, L.Enabled;
    var e := ActLife(life, n, act);
    assert e.Mark? || e.Lock? || e.Move? || e.Compare? || e.Unlock? || e.Unmark? || e.Outside?;
    SameLeases(life, e);
  }

  lemma SameLeases(life: L.World, e: L.Event)
    requires L.Enabled(life, e) && (e.Mark? || e.Lock? || e.Move? || e.Compare? || e.Unlock? || e.Unmark? || e.Outside?)
    ensures L.Apply(life, e).leases == life.leases
    ensures e.Mark? || e.Move? || e.Compare? || e.Unmark? ==> L.Apply(life, e).locks == life.locks
    ensures e.Outside? ==> L.Apply(life, e).locks == e.locks
  {
    hide L.Flag, L.RefsOf, L.To, L.Grant, L.Return, CanLease, CanWatch, L.Collects;
  }

  /** A step of the publication that changes no directory. */
  lemma Acts(w: World, x: Cast, ph: L.Phase, c: Check, act: Act)
    requires Underway(w, x, ph, c) && CanDo(w, x.n, act) && ActFiles(w, x.n, act) == w.files
    ensures Enabled(w, Do(x.n, act))
    ensures var u := Apply(w, Do(x.n, act));
            && Underway(u, x, ActPhase(w, x.n, act), ActCheck(w, x.n, act))
            && (!act.Lock? && !act.Unlock? ==> u.life.locks == w.life.locks)
  {
    hide Inv, P.Binary, CanDo, ActFiles, ActPhase, ActCheck, L.Apply, L.Enabled;
    CanIsEnabled(w, Do(x.n, act));
    StepInv(w, Do(x.n, act));
    OwnStep(w, x.n, act);
    DoLife(w.life, x.n, act);
  }

  /** The stage is held once, so it can be marked. */
  lemma HeldOnce(w: World, x: Cast, ph: L.Phase, c: Check)
    requires Underway(w, x, ph, c)
    ensures L.RefsOf(w.life.reg, x.stage) == 1
  {
    hide AllTracked, L.AllPinned, L.AllFlagged, L.AllPublishing, P.Binary;
    assert L.Counted(w.life.reg, w.life.leases, w.life.watches, x.stage);
    assert L.Leases(w.life.leases, x.stage) == {L.Publisher(x.n)};
  }

  /** From the beginning to the listing of the stage. */
  lemma Moves(w: World, x: Cast) returns (u: World, events: seq<Event>)
    requires Underway(w, x, L.Begun, Check(None, Waiting)) && w.life.locks == {}
    ensures Feasible(w, events) && After(w, events) == u && forall e :: e in events ==> e.Do?
    ensures Underway(u, x, L.Comparing, Check(Some(Entry(x)), ToList))
  {
    hide Inv, Enabled, Apply, Feasible, After, P.Binary, L.RefsOf;
    HeldOnce(w, x, L.Begun, Check(None, Waiting));
    Acts(w, x, L.Begun, Check(None, Waiting), Mark);
    var w1 := Apply(w, Do(x.n, Mark));
    Acts(w1, x, L.Marked, Check(Some(Entry(x)), Waiting), Lock);
    var w2 := Apply(w1, Do(x.n, Lock));
    LifeInv(w2);
    Acts(w2, x, L.Locked, Check(Some(Entry(x)), Waiting), Move(true));
    u := Apply(w2, Do(x.n, Move(true)));
    ThreeSteps(w, Do(x.n, Mark), Do(x.n, Lock), Do(x.n, Move(true)));
    events := [Do(x.n, Mark), Do(x.n, Lock), Do(x.n, Move(true))];
  }

  lemma ComparesStage(w: World, x: Cast)
    requires Underway(w, x, L.Comparing, Check(Some(Entry(x)), ToList))
    ensures Enabled(w, Do(x.n, ListStage)) && Enabled(Apply(w, Do(x.n, ListStage)), Do(x.n, CheckStage(x.name)))
    ensures Underway(Apply(Apply(w, Do(x.n, ListStage)), Do(x.n, CheckStage(x.name))), x, L.Comparing, Check(Some(Entry(x)), StageSide({})))
  {
    hide Inv, Enabled, Apply, P.Binary, P.Hint, L.RefsOf;
    var staged := Some(Entry(x));
    assert Entry(x).Keys == {x.name} && {x.name} - {x.name} == {};
    Acts(w, x, L.Comparing, Check(staged, ToList), ListStage);
    Acts(Apply(w, Do(x.n, ListStage)), x, L.Comparing, Check(staged, StageSide({x.name})), CheckStage(x.name));
  }

  lemma ComparesFinal(w: World, x: Cast)
    requires Underway(w, x, L.Comparing, Check(Some(Entry(x)), StageSide({})))
    ensures Enabled(w, Do(x.n, ListFinal)) && Enabled(Apply(w, Do(x.n, ListFinal)), Do(x.n, CheckFinal(x.name)))
    ensures Underway(Apply(Apply(w, Do(x.n, ListFinal)), Do(x.n, CheckFinal(x.name))), x, L.Comparing, Check(Some(Entry(x)), FinalSide({}, {x.name})))
  {
    hide Inv, Enabled, Apply, P.Binary, P.Hint, L.RefsOf;
    var staged := Some(Entry(x));
    assert Entry(x).Keys == {x.name} && {x.name} - {x.name} == {};
    Acts(w, x, L.Comparing, Check(staged, StageSide({})), ListFinal);
    Acts(Apply(w, Do(x.n, ListFinal)), x, L.Comparing, Check(staged, FinalSide({x.name}, {x.name})), CheckFinal(x.name));
  }

  /** From there to the end of the comparison. */
  lemma Compares(w: World, x: Cast) returns (u: World, events: seq<Event>)
    requires Underway(w, x, L.Comparing, Check(Some(Entry(x)), ToList))
    ensures Feasible(w, events) && After(w, events) == u && forall e :: e in events ==> e.Do?
    ensures Underway(u, x, L.Comparing, Check(Some(Entry(x)), FinalSide({}, {x.name})))
  {
    hide Underway, Enabled, Apply, Feasible, After;
    ComparesStage(w, x);
    var w1 := Apply(w, Do(x.n, ListStage));
    var w2 := Apply(w1, Do(x.n, CheckStage(x.name)));
    ComparesFinal(w2, x);
    u := Apply(Apply(w2, Do(x.n, ListFinal)), Do(x.n, CheckFinal(x.name)));
    ThreeSteps(w1, Do(x.n, CheckStage(x.name)), Do(x.n, ListFinal), Do(x.n, CheckFinal(x.name)));
    var rest := [Do(x.n, CheckStage(x.name)), Do(x.n, ListFinal), Do(x.n, CheckFinal(x.name))];
    First(w, Do(x.n, ListStage), rest);
    events := [Do(x.n, ListStage)] + rest;
  }

  lemma {:induction false} Joined(w: World, a: seq<Event>, b: seq<Event>)
    requires Feasible(w, a) && Feasible(After(w, a), b)
    ensures Feasible(w, a + b) && After(w, a + b) == After(After(w, a), b)
    decreases |a|
  {
    hide Enabled, Apply;
    if a == [] {
      assert a + b == b;
    } else {
      assert (a + b)[1..] == a[1..] + b;
      Joined(Apply(w, a[0]), a[1..], b);
    }
  }

  lemma Compared(env: Env, x: Cast, info: L.Dir) returns (u: World, events: seq<Event>)
    requires Staged(env, x)
    ensures Feasible(Twins(env, x, info), events) && After(Twins(env, x, info), events) == u && forall e :: e in events ==> !e.Link?
    ensures Underway(u, x, L.Comparing, Check(Some(Entry(x)), FinalSide({}, {x.name})))
  {
    hide Underway, Enabled, Apply, Feasible, After, P.Binary;
    Begins(env, x, info);
    var w, lease, begin := Twins(env, x, info), Plain(L.Lease(x.r, {x.final})), Begin(x.n, x.stage, x.final);
    var w1 := Apply(w, lease);
    var begun := Apply(w1, begin);
    var listed, moves := Moves(begun, x);
    var last, compares := Compares(listed, x);
    Joined(begun, moves, compares);
    First(w1, begin, moves + compares);
    First(w, lease, [begin] + (moves + compares));
    u, events := last, [lease] + ([begin] + (moves + compares));
  }

  /**
   From the start there is a run in which the publication reports success and the destination
   holds a binary that was never staged, for any directories, binary and index.
   */
  lemma ExtraBinaryIsReachable(env: Env, x: Cast, temp: P.Name, index: seq<bv8>, info: L.Dir) returns (events: seq<Event>)
    requires Staged(env, x) && x.name != INDEX && !P.Binary(temp)
    ensures Feasible(Twins(env, x, info), events)
    ensures var u := After(Twins(env, x, info), events);
            && x.n in u.checks && u.checks[x.n].step == Done(true) && u.checks[x.n].staged == Some(Entry(x))
            && x.final in u.files && INDEX in u.files[x.final] && INDEX !in Entry(x)
  {
    hide Inv, Enabled, Apply, Feasible, After, P.Binary, IndexBuilt;
    var u, prelude := Compared(env, x, info);
    IndexLinkedMeanwhile(u, x.n, x.r, temp, index, info);
    var built := IndexBuilt(x.final, u.files[x.final], x.r, temp, index, info);
    var last := After(u, built);
    BuiltEndsNothing(x.final, u.files[x.final], x.r, temp, index, info, x.n);
    StaysStaged(u, built, x.n);
    Ends(last, Do(x.n, Discard));
    Joined(u, built, [Do(x.n, Discard)]);
    Joined(Twins(env, x, info), prelude, built + [Do(x.n, Discard)]);
    events := prelude + (built + [Do(x.n, Discard)]);
  }

  lemma BuiltEndsNothing(p: Path, before: Entries, r: nat, temp: P.Name, bytes: seq<bv8>, info: L.Dir, n: nat)
    ensures End(n) !in IndexBuilt(p, before, r, temp, bytes, info)
  {
  }

  lemma Ends(w: World, e: Event)
    requires Enabled(w, e)
    ensures Feasible(w, [e]) && After(w, [e]) == Apply(w, e)
  {
    hide Enabled, Apply;
    assert [e][1..] == [];
  }

  /** What was staged is remembered through the index and the discard. */
  lemma StaysStaged(w: World, events: seq<Event>, n: nat)
    requires Inv(w) && Feasible(w, events) && n in w.life.pubs && w.life.pubs[n].phase != L.Begun && End(n) !in events
    requires Enabled(After(w, events), Do(n, Discard))
    ensures n in w.checks && n in Apply(After(w, events), Do(n, Discard)).checks
    ensures Apply(After(w, events), Do(n, Discard)).checks[n].staged == w.checks[n].staged
  {
    hide Inv, Feasible, After, Apply, L.Enabled;
    RunInv(w, events);
    OnePublication(w, events, n);
    OneStep(After(w, events), Do(n, Discard), n);
  }

  /** The same with nothing linked: the extra binary is the temporary file of a reconstruction. */
  lemma TemporaryBinaryIsReachable(env: Env, x: Cast, temp: P.Name, bytes: seq<bv8>, info: L.Dir) returns (events: seq<Event>)
    requires Staged(env, x) && P.Binary(temp) && env.temporary(temp)
    ensures Feasible(Twins(env, x, info), events) && forall e :: e in events ==> !e.Link?
    ensures var u := After(Twins(env, x, info), events);
            && x.n in u.checks && u.checks[x.n].step == Done(true) && u.checks[x.n].staged == Some(Entry(x))
            && x.final in u.files && temp in u.files[x.final] && temp !in Entry(x)
  {
    hide Inv, Enabled, Apply, Feasible, After, P.Binary;
    var u, prelude := Compared(env, x, info);
    SameEnvRun(Twins(env, x, info), prelude);
    ReconstructionMeanwhile(u, x.n, x.r, temp, bytes, info);
    var make, discard := Temp(x.r, x.final, temp, Some(bytes), info), Do(x.n, Discard);
    Ends(u, make);
    StaysStaged(u, [make], x.n);
    Ends(Apply(u, make), discard);
    Joined(u, [make], [discard]);
    Joined(Twins(env, x, info), prelude, [make] + [discard]);
    events := prelude + ([make] + [discard]);
  }

  lemma {:induction false} SameEnvRun(w: World, events: seq<Event>)
    requires Feasible(w, events)
    ensures After(w, events).env == w.env
    decreases |events|
  {
    hide Enabled;
    if events != [] {
      SameEnvRun(Apply(w, events[0]), events[1..]);
    }
  }

  // Ordinary publications succeed.

  /** The first publication of a generation: an absent destination becomes what was staged, and that is a success. */
  lemma RenamePublishes(w: World, n: nat)
    requires Inv(w) && CanDo(w, n, Move(true)) && w.life.pubs[n].stage in w.files && w.life.pubs[n].final !in w.files
    ensures Enabled(w, Do(n, Move(true)))
    ensures var u, p := Apply(w, Do(n, Move(true))), w.life.pubs[n];
            && n in u.checks && u.checks[n].step == Done(true)
            && p.final in u.files && u.files[p.final] == w.files[p.stage] && p.stage !in u.files
            && forall q :: q != p.stage && q != p.final ==> EntriesAt(u.files, q) == EntriesAt(w.files, q)
  {
    hide Inv, Enabled, Apply, L.Enabled;
    CanIsEnabled(w, Do(n, Move(true)));
    OwnStep(w, n, Move(true));
    StagingPaths(w, n);
  }

  /** A publisher in the middle of a comparison of two directories that match. */
  ghost predicate Matches(w: World, n: nat, step: Step) {
    && Inv(w) && n in w.life.pubs && n in w.checks && w.checks[n].step == step
    && w.life.pubs[n].stage in w.files && w.life.pubs[n].final in w.files
    && P.Matching(w.env.digest, w.files[w.life.pubs[n].stage], w.files[w.life.pubs[n].final])
  }

  /** A step of such a publisher that changes no directory and no lifecycle phase. */
  lemma MatchStep(w: World, n: nat, step: Step, act: Act)
    requires Matches(w, n, step) && CanDo(w, n, act) && (act.ListStage? || act.CheckStage? || act.ListFinal? || act.CheckFinal?)
    ensures Enabled(w, Do(n, act)) && Matches(Apply(w, Do(n, act)), n, ActCheck(w, n, act).step)
    ensures Apply(w, Do(n, act)).files == w.files && Apply(w, Do(n, act)).life.pubs[n] == w.life.pubs[n]
  {
    hide Inv, Enabled, Apply, L.Enabled, P.Matching, ActCheck;
    CanIsEnabled(w, Do(n, act));
    StepInv(w, Do(n, act));
    OwnStep(w, n, act);
  }

  lemma MatchedEntry(w: World, n: nat, step: Step, name: P.Name)
    requires Matches(w, n, step)
    requires name in w.files[w.life.pubs[n].stage] || name in w.files[w.life.pubs[n].final]
    ensures Equal(w, n, name)
  {
    hide Inv, P.SameAt;
  }

  lemma {:induction false} MatchesStage(w: World, n: nat, todo: set<P.Name>) returns (u: World, events: seq<Event>)
    requires Matches(w, n, StageSide(todo)) && todo <= w.files[w.life.pubs[n].stage].Keys
    ensures Feasible(w, events) && After(w, events) == u && Matches(u, n, StageSide({}))
    ensures u.files == w.files && u.life.pubs[n] == w.life.pubs[n]
    decreases todo
  {
    hide Inv, Enabled, Apply, Feasible, After, P.Matching, Equal, L.RefsOf;
    if todo == {} {
      NoEvents(w);
      u, events := w, [];
    } else {
      var name :| name in todo;
      MatchedEntry(w, n, StageSide(todo), name);
      MatchStep(w, n, StageSide(todo), CheckStage(name));
      var next := Apply(w, Do(n, CheckStage(name)));
      var last, rest := MatchesStage(next, n, todo - {name});
      First(w, Do(n, CheckStage(name)), rest);
      u, events := last, [Do(n, CheckStage(name))] + rest;
    }
  }

  lemma {:induction false} MatchesFinal(w: World, n: nat, todo: set<P.Name>, listed: set<P.Name>) returns (u: World, events: seq<Event>)
    requires Matches(w, n, FinalSide(todo, listed)) && todo <= w.files[w.life.pubs[n].final].Keys
    ensures Feasible(w, events) && After(w, events) == u && Matches(u, n, FinalSide({}, listed))
    ensures u.files == w.files && u.life.pubs[n] == w.life.pubs[n]
    decreases todo
  {
    hide Inv, Enabled, Apply, Feasible, After, P.Matching, Equal, L.RefsOf;
    if todo == {} {
      NoEvents(w);
      u, events := w, [];
    } else {
      var name :| name in todo;
      MatchedEntry(w, n, FinalSide(todo, listed), name);
      MatchStep(w, n, FinalSide(todo, listed), CheckFinal(name));
      var next := Apply(w, Do(n, CheckFinal(name)));
      var last, rest := MatchesFinal(next, n, todo - {name}, listed);
      First(w, Do(n, CheckFinal(name)), rest);
      u, events := last, [Do(n, CheckFinal(name))] + rest;
    }
  }

  lemma NoEvents(w: World)
    ensures Feasible(w, []) && After(w, []) == w
  {
  }

  /** A comparison can be given up at any point; nothing is published and both directories stay. */
  lemma ComparisonCanStop(w: World, n: nat)
    requires Inv(w) && n in w.life.pubs && w.life.pubs[n].phase == L.Comparing
    ensures Enabled(w, Do(n, Refuse))
    ensures var u := Apply(w, Do(n, Refuse)); n in u.checks && u.checks[n].step == Done(false) && u.files == w.files
  {
    hide Enabled, Apply, L.Inv, L.Enabled, TempsOk, StagesClean;
    CanIsEnabled(w, Do(n, Refuse));
    OwnStep(w, n, Refuse);
  }

  /** A duplicate is accepted: with a matching destination and nobody in between, the publication succeeds and leaves it alone. */
  lemma DuplicateSucceeds(w: World, n: nat) returns (events: seq<Event>)
    requires Matches(w, n, ToList)
    ensures Feasible(w, events)
    ensures var u, p := After(w, events), w.life.pubs[n];
            n in u.checks && u.checks[n].step == Done(true) && u.files == w.files - {p.stage}
  {
    hide Inv, Enabled, Apply, Feasible, After, P.Matching, Equal, L.RefsOf;
    var stage, final := w.files[w.life.pubs[n].stage].Keys, w.files[w.life.pubs[n].final].Keys;
    MatchStep(w, n, ToList, ListStage);
    var w1 := Apply(w, Do(n, ListStage));
    var w2, stageChecks := MatchesStage(w1, n, stage);
    MatchStep(w2, n, StageSide({}), ListFinal);
    var w3 := Apply(w2, Do(n, ListFinal));
    var w4, finalChecks := MatchesFinal(w3, n, final, final);
    Discards(w4, n, final);
    Ends(w4, Do(n, Discard));
    Joined(w3, finalChecks, [Do(n, Discard)]);
    First(w2, Do(n, ListFinal), finalChecks + [Do(n, Discard)]);
    Joined(w1, stageChecks, [Do(n, ListFinal)] + (finalChecks + [Do(n, Discard)]));
    First(w, Do(n, ListStage), stageChecks + ([Do(n, ListFinal)] + (finalChecks + [Do(n, Discard)])));
    events := [Do(n, ListStage)] + (stageChecks + ([Do(n, ListFinal)] + (finalChecks + [Do(n, Discard)])));
  }

  lemma Discards(w: World, n: nat, listed: set<P.Name>)
    requires Matches(w, n, FinalSide({}, listed))
    ensures Enabled(w, Do(n, Discard))
    ensures var u := Apply(w, Do(n, Discard)); n in u.checks && u.checks[n].step == Done(true) && u.files == w.files - {w.life.pubs[n].stage}
  {
    hide Inv, Enabled, Apply, P.Matching, PublicationRuns.Compared, L.Enabled;
    Track(w, n);
    CanIsEnabled(w, Do(n, Discard));
    OwnStep(w, n, Discard);
  }
}
