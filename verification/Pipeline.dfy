/** Concurrent rebuilding of the check pipeline (guardcore/pipeline.go:1190-1236,
    guardcore/config.go:391-393, guardcore/dynamicrules.go:491-519). */
module Pipeline {
  import opened Texts

  type Value = int

  /** The configuration fields by number. */
  type Fields = seq<Value>

  /** A set of checks: the values its builder read, the revision and the container sizes noted
      before the reading began. */
  datatype Build = Build(revision: nat, signature: seq<nat>, read: map<nat, Value>)

  /** Where a goroutine stands in its rebuild. */
  datatype Phase =
    | Resting
    | FoundStale
    | Noted(revision: nat)
    | Reading(build: Build)

  /** An open rule application keeps the snapshot it would restore. */
  datatype State = State(
    config: Fields,
    revision: nat,
    writers: nat,
    application: Option<Fields>,
    builders: seq<Phase>,
    published: Build)

  datatype Step =
    | OpenMutation
    | OpenApplication
    | Write(field: nat, value: Value)
    | BumpMutation
    | BumpApplication
    | RollBack
    | Judge(builder: nat)
    | NoteRevision(builder: nat)
    | NoteSignature(builder: nat)
    | ReadField(builder: nat, field: nat)
    | Publish(builder: nat)

  /** The sizes of the watched containers, as a function of the fields. */
  datatype Watch = Watch(sizes: Fields -> seq<nat>)

  predicate Mutating(s: State) {
    s.writers > 0 || s.application.Some?
  }

  predicate IsStale(w: Watch, s: State) {
    s.revision != s.published.revision || w.sizes(s.config) != s.published.signature
  }

  predicate Complete(build: Build, count: nat) {
    forall f :: 0 <= f < count ==> f in build.read
  }

  predicate Enabled(s: State, step: Step) {
    match step
    case OpenMutation => true
    case OpenApplication => s.application.None?
    case Write(field, _) => Mutating(s) && field < |s.config|
    case BumpMutation => s.writers > 0
    case BumpApplication => s.application.Some?
    case RollBack => s.application.Some?
    case Judge(b) => b < |s.builders| && s.builders[b].Resting?
    case NoteRevision(b) => b < |s.builders| && s.builders[b].FoundStale?
    case NoteSignature(b) => b < |s.builders| && s.builders[b].Noted?
    case ReadField(b, field) => b < |s.builders| && s.builders[b].Reading? && field < |s.config|
    case Publish(b) => b < |s.builders| && s.builders[b].Reading? && Complete(s.builders[b].build, |s.config|)
  }

  function Next(w: Watch, s: State, step: Step): State
    requires Enabled(s, step)
  {
    match step
    case OpenMutation => s.(writers := s.writers + 1)
    case OpenApplication => s.(application := Some(s.config))
    case Write(field, value) => s.(config := s.config[field := value])
    case BumpMutation => s.(writers := s.writers - 1, revision := s.revision + 1)
    case BumpApplication => s.(application := None, revision := s.revision + 1)
    case RollBack => s.(application := None, config := s.application.value)
    case Judge(b) => if IsStale(w, s) then s.(builders := s.builders[b := FoundStale]) else s
    case NoteRevision(b) => s.(builders := s.builders[b := Noted(s.revision)])
    case NoteSignature(b) =>
      s.(builders := s.builders[b := Reading(Build(s.builders[b].revision, w.sizes(s.config), map[]))])
    case ReadField(b, field) =>
      var build := s.builders[b].build;
      s.(builders := s.builders[b := Reading(build.(read := build.read[field := s.config[field]]))])
    case Publish(b) => s.(published := s.builders[b].build, builders := s.builders[b := Resting])
  }

  // ---------------------------------------------------------------- what every step keeps

  /** Published under these fields, the build would not be found stale. */
  predicate Passes(w: Watch, s: State, build: Build, fields: Fields) {
    build.revision == s.revision && build.signature == w.sizes(fields)
  }

  predicate Agrees(build: Build, fields: Fields) {
    forall f :: f in build.read && f < |fields| ==> build.read[f] == fields[f]
  }

  /** What holds of each build, in progress or published. */
  predicate BuildOk(w: Watch, s: State, build: Build) {
    && build.revision <= s.revision
    && (!Mutating(s) && Passes(w, s, build, s.config) ==> Agrees(build, s.config))
  }

  predicate PhaseOk(w: Watch, s: State, phase: Phase) {
    match phase
    case Resting => true
    case FoundStale => true
    case Noted(revision) => revision <= s.revision
    case Reading(build) => BuildOk(w, s, build)
  }

  predicate Inv(w: Watch, s: State) {
    && BuildOk(w, s, s.published) && Complete(s.published, |s.config|)
    && (forall b :: 0 <= b < |s.builders| ==> PhaseOk(w, s, s.builders[b]))
    && (s.application.Some? ==> |s.application.value| == |s.config|)
  }

  /** When nothing is being changed and the pipeline is not stale, the published checks were built
      from the configuration as it is. */
  predicate Safe(w: Watch, s: State) {
    !Mutating(s) && !IsStale(w, s) ==>
      forall f :: 0 <= f < |s.config| ==> f in s.published.read && s.published.read[f] == s.config[f]
  }

  lemma InvIsSafe(w: Watch, s: State)
    requires Inv(w, s)
    ensures Safe(w, s)
  {
  }

  predicate AllBuilds(s: State, test: Build -> bool) {
    test(s.published) && forall b :: 0 <= b < |s.builders| && s.builders[b].Reading? ==> test(s.builders[b].build)
  }

  /** No build, published or in progress, that would pass for one of the snapshot differs from it;
      a mutation that is still open will raise the revision anyway. */
  predicate Harmless(w: Watch, s: State)
    requires s.application.Some?
  {
    s.writers == 0 ==>
      AllBuilds(s, build => Passes(w, s, build, s.application.value) ==> Agrees(build, s.application.value))
  }

  /** Steps that the guarantee allows: everything but rolling back an application when that harms. */
  predicate Orderly(w: Watch, s: State, step: Step) {
    Enabled(s, step) && (step.RollBack? ==> Harmless(w, s))
  }

  lemma BuildKept(w: Watch, s: State, step: Step, build: Build)
    requires Inv(w, s) && Orderly(w, s, step) && BuildOk(w, s, build)
    requires step.RollBack? && s.writers == 0 && Passes(w, s, build, s.application.value) ==>
               Agrees(build, s.application.value)
    ensures BuildOk(w, Next(w, s, step), build)
  {
    hide AllBuilds, Agrees;
  }

  lemma PhaseKept(w: Watch, s: State, step: Step, b: nat)
    requires Inv(w, s) && Orderly(w, s, step) && b < |s.builders|
    ensures |Next(w, s, step).builders| == |s.builders|
    ensures PhaseOk(w, Next(w, s, step), Next(w, s, step).builders[b])
  {
    hide BuildOk, Passes, Agrees;
    var phase := s.builders[b];
    assert PhaseOk(w, s, phase);
    if phase.Reading? {
      BuildKept(w, s, step, phase.build);
    }
    if step.NoteSignature? && step.builder == b {
      NewBuildOk(w, s, b);
    }
    if step.ReadField? && step.builder == b {
      ReadOk(w, s, b, step.field);
    }
  }

  lemma NewBuildOk(w: Watch, s: State, b: nat)
    requires Inv(w, s) && Enabled(s, NoteSignature(b))
    ensures var after := Next(w, s, NoteSignature(b));
            BuildOk(w, after, after.builders[b].build)
  {
    assert PhaseOk(w, s, s.builders[b]);
  }

  lemma ReadOk(w: Watch, s: State, b: nat, field: nat)
    requires Inv(w, s) && Enabled(s, ReadField(b, field))
    ensures var after := Next(w, s, ReadField(b, field));
            BuildOk(w, after, after.builders[b].build)
  {
    assert PhaseOk(w, s, s.builders[b]);
  }

  lemma PublishedKept(w: Watch, s: State, step: Step)
    requires Inv(w, s) && Orderly(w, s, step)
    ensures var after := Next(w, s, step);
            BuildOk(w, after, after.published) && Complete(after.published, |after.config|)
  {
    hide BuildOk, Passes, Agrees;
    BuildKept(w, s, step, s.published);
    if step.Publish? {
      assert PhaseOk(w, s, s.builders[step.builder]);
      BuildKept(w, s, step, s.builders[step.builder].build);
    }
  }

  /** Every orderly step keeps the invariant. */
  lemma InvKept(w: Watch, s: State, step: Step)
    requires Inv(w, s) && Orderly(w, s, step)
    ensures Inv(w, Next(w, s, step))
  {
    PublishedKept(w, s, step);
    var after := Next(w, s, step);
    forall b | 0 <= b < |after.builders| ensures PhaseOk(w, after, after.builders[b]) {
      PhaseKept(w, s, step, b);
    }
  }

  // ---------------------------------------------------------------- whole runs

  predicate OrderlyRun(w: Watch, s: State, steps: seq<Step>)
    decreases |steps|
  {
    steps == [] || (Orderly(w, s, steps[0]) && OrderlyRun(w, Next(w, s, steps[0]), steps[1..]))
  }

  predicate EnabledRun(w: Watch, s: State, steps: seq<Step>)
    decreases |steps|
  {
    steps == [] || (Enabled(s, steps[0]) && EnabledRun(w, Next(w, s, steps[0]), steps[1..]))
  }

  function After(w: Watch, s: State, steps: seq<Step>): State
    requires EnabledRun(w, s, steps)
    decreases |steps|
  {
    if steps == [] then s else After(w, Next(w, s, steps[0]), steps[1..])
  }

  /** A pipeline whose first checks were built from the configuration it starts with. */
  predicate Init(w: Watch, s: State) {
    && !Mutating(s) && s.published.revision == s.revision
    && s.published.signature == w.sizes(s.config)
    && (forall f :: 0 <= f < |s.config| ==> f in s.published.read && s.published.read[f] == s.config[f])
    && (forall b :: 0 <= b < |s.builders| ==> s.builders[b].Resting?)
  }

  lemma InitInv(w: Watch, s: State)
    requires Init(w, s)
    ensures Inv(w, s)
  {
  }

  lemma {:induction false} InvThroughout(w: Watch, s: State, steps: seq<Step>)
    requires Inv(w, s) && OrderlyRun(w, s, steps)
    ensures EnabledRun(w, s, steps) && Inv(w, After(w, s, steps))
    decreases |steps|
  {
    hide Inv, Next, Orderly;
    if steps != [] {
      OrderlyIsEnabled(w, s, steps[0]);
      InvKept(w, s, steps[0]);
      InvThroughout(w, Next(w, s, steps[0]), steps[1..]);
    }
  }

  lemma OrderlyIsEnabled(w: Watch, s: State, step: Step)
    requires Orderly(w, s, step)
    ensures Enabled(s, step)
  {
  }

  /** No rebuild is lost: at the end of every run, however mutations and any number of rebuilds
      interleave, quiet and not stale means built from the current configuration. */
  lemma NoRebuildLost(w: Watch, s: State, steps: seq<Step>)
    requires Init(w, s) && OrderlyRun(w, s, steps)
    ensures EnabledRun(w, s, steps) && Safe(w, After(w, s, steps))
  {
    hide Inv, Init, Safe, OrderlyRun, EnabledRun, After;
    InitInv(w, s);
    InvThroughout(w, s, steps);
    InvIsSafe(w, After(w, s, steps));
  }

  // ---------------------------------------------------------------- rolled-back applications

  predicate NoRollBack(steps: seq<Step>) {
    forall i :: 0 <= i < |steps| ==> !steps[i].RollBack?
  }

  /** Whatever comes next, short of another roll-back, the pipeline stays safe. */
  ghost predicate SafeOnwards(w: Watch, s: State) {
    forall more :: NoRollBack(more) && EnabledRun(w, s, more) ==> Safe(w, After(w, s, more))
  }

  /** The same for every orderly continuation, further roll-backs included. */
  ghost predicate SafeOrderly(w: Watch, s: State) {
    forall more :: EnabledRun(w, s, more) && OrderlyRun(w, s, more) ==> Safe(w, After(w, s, more))
  }

  lemma {:induction false} NoRollBackOrderly(w: Watch, s: State, steps: seq<Step>)
    requires NoRollBack(steps) && EnabledRun(w, s, steps)
    ensures OrderlyRun(w, s, steps)
    decreases |steps|
  {
    hide Enabled, Next;
    if steps != [] {
      assert !steps[0].RollBack?;
      NoRollBackOrderly(w, Next(w, s, steps[0]), steps[1..]);
    }
  }

  lemma InvSafeOrderly(w: Watch, s: State)
    requires Inv(w, s)
    ensures SafeOrderly(w, s)
  {
    hide Inv, Safe, OrderlyRun, EnabledRun, After;
    forall more | EnabledRun(w, s, more) && OrderlyRun(w, s, more) ensures Safe(w, After(w, s, more)) {
      InvThroughout(w, s, more);
      InvIsSafe(w, After(w, s, more));
    }
  }

  lemma OrderlyOnwards(w: Watch, s: State)
    requires SafeOrderly(w, s)
    ensures SafeOnwards(w, s)
  {
    hide Safe, OrderlyRun, EnabledRun, After, NoRollBack;
    forall more | NoRollBack(more) && EnabledRun(w, s, more) ensures Safe(w, After(w, s, more)) {
      NoRollBackOrderly(w, s, more);
    }
  }

  /** The fields below `count` that the build has not read yet. */
  function Missing(b: nat, build: Build, count: nat): seq<Step> {
    if count == 0 then []
    else Missing(b, build, count - 1) + if count - 1 in build.read then [] else [ReadField(b, count - 1)]
  }

  lemma {:induction false} MissingRun(w: Watch, s: State, b: nat, count: nat)
    requires b < |s.builders| && s.builders[b].Reading? && count <= |s.config|
    ensures NoRollBack(Missing(b, s.builders[b].build, count))
    ensures EnabledRun(w, s, Missing(b, s.builders[b].build, count))
    ensures var build, after := s.builders[b].build, After(w, s, Missing(b, s.builders[b].build, count));
            && after == s.(builders := after.builders) && |after.builders| == |s.builders|
            && after.builders[b].Reading?
            && var full := after.builders[b].build;
               && full == build.(read := full.read) && Complete(full, count)
               && forall f :: f in build.read ==> f in full.read && full.read[f] == build.read[f]
  {
    var build := s.builders[b].build;
    if count == 0 {
      NothingRuns(w, s);
    } else {
      MissingRun(w, s, b, count - 1);
      if count - 1 in build.read {
        assert Missing(b, build, count - 1) + [] == Missing(b, build, count - 1);
      } else {
        OneMoreStep(w, s, Missing(b, build, count - 1), ReadField(b, count - 1));
      }
    }
  }

  lemma OneMoreStep(w: Watch, s: State, steps: seq<Step>, step: Step)
    requires EnabledRun(w, s, steps) && Enabled(After(w, s, steps), step)
    ensures EnabledRun(w, s, steps + [step])
    ensures After(w, s, steps + [step]) == Next(w, After(w, s, steps), step)
  {
    hide After, EnabledRun, Next, Enabled;
    var before := After(w, s, steps);
    NothingRuns(w, Next(w, before, step));
    FirstStep(w, before, [step], [], Next(w, before, step));
    RunConcat(w, s, steps, [step]);
  }

  /** A build that passes for one of the configuration and differs from it can be published. */
  lemma PublishedWrong(w: Watch, s: State, b: nat)
    requires !Mutating(s) && b < |s.builders| && s.builders[b].Reading?
    requires var build := s.builders[b].build; Passes(w, s, build, s.config) && !Agrees(build, s.config)
    ensures !SafeOnwards(w, s)
  {
    hide After, EnabledRun, Missing;
    var build := s.builders[b].build;
    var catchUp := Missing(b, build, |s.config|);
    MissingRun(w, s, b, |s.config|);
    OneMoreStep(w, s, catchUp, Publish(b));
    var run := catchUp + [Publish(b)];
    assert NoRollBack(run) && EnabledRun(w, s, run);
    var f :| f in build.read && f < |s.config| && build.read[f] != s.config[f];
    assert After(w, s, run).published.read[f] != s.config[f];
  }

  lemma WrongAlready(w: Watch, s: State)
    requires !Mutating(s) && Passes(w, s, s.published, s.config) && !Agrees(s.published, s.config)
    ensures !SafeOnwards(w, s)
  {
    NothingRuns(w, s);
    assert NoRollBack([]) && EnabledRun(w, s, []);
    var f :| f in s.published.read && f < |s.config| && s.published.read[f] != s.config[f];
  }

  lemma HarmfulUnsafe(w: Watch, s: State)
    requires Inv(w, s) && s.application.Some? && !Harmless(w, s)
    ensures !SafeOnwards(w, Next(w, s, RollBack))
  {
    hide SafeOnwards, Agrees;
    var after, fields := Next(w, s, RollBack), s.application.value;
    if Passes(w, s, s.published, fields) && !Agrees(s.published, fields) {
      WrongAlready(w, after);
    } else {
      var b :| 0 <= b < |s.builders| && s.builders[b].Reading?
               && Passes(w, s, s.builders[b].build, fields) && !Agrees(s.builders[b].build, fields);
      PublishedWrong(w, after, b);
    }
  }

  /** Rolling back puts the fields back without a new revision.  Every orderly continuation is safe
      exactly when no build of this revision whose signature is that of the snapshot holds a value
      that differs from the snapshot; one that does can be published without another roll-back. */
  lemma RollBackExact(w: Watch, s: State)
    requires Inv(w, s) && s.application.Some?
    ensures SafeOrderly(w, Next(w, s, RollBack)) <==> Harmless(w, s)
    ensures SafeOnwards(w, Next(w, s, RollBack)) <==> Harmless(w, s)
  {
    hide SafeOrderly, SafeOnwards, Harmless, Inv, Next;
    assert Enabled(s, RollBack);
    if Harmless(w, s) {
      InvKept(w, s, RollBack);
      InvSafeOrderly(w, Next(w, s, RollBack));
      OrderlyOnwards(w, Next(w, s, RollBack));
    } else {
      HarmfulUnsafe(w, s);
      if SafeOrderly(w, Next(w, s, RollBack)) {
        OrderlyOnwards(w, Next(w, s, RollBack));
      }
    }
  }

  /** Safe onwards from every state of the run. */
  ghost predicate SafeAlong(w: Watch, s: State, steps: seq<Step>)
    requires EnabledRun(w, s, steps)
    decreases |steps|
  {
    SafeOnwards(w, s) && (steps == [] || SafeAlong(w, Next(w, s, steps[0]), steps[1..]))
  }

  lemma {:induction false} OrderlyAlong(w: Watch, s: State, steps: seq<Step>)
    requires Inv(w, s) && EnabledRun(w, s, steps)
    ensures OrderlyRun(w, s, steps) <==> SafeAlong(w, s, steps)
    decreases |steps|
  {
    hide Inv, Next, SafeOnwards, Harmless;
    InvSafeOrderly(w, s);
    OrderlyOnwards(w, s);
    if steps != [] {
      var next := Next(w, s, steps[0]);
      if Orderly(w, s, steps[0]) {
        InvKept(w, s, steps[0]);
        OrderlyAlong(w, next, steps[1..]);
      } else {
        assert steps[0] == RollBack;
        RollBackExact(w, s);
      }
    }
  }

  /** No run outside the guarantee is safe for good: a run is orderly exactly when from none of its
      states, without any further roll-back, wrong checks can come to be taken for fresh ones. */
  lemma OrderlyExact(w: Watch, s: State, steps: seq<Step>)
    requires Init(w, s) && EnabledRun(w, s, steps)
    ensures OrderlyRun(w, s, steps) <==> SafeAlong(w, s, steps)
  {
    hide Inv, Init, OrderlyRun, SafeAlong, EnabledRun;
    InitInv(w, s);
    OrderlyAlong(w, s, steps);
  }

  function Fresh(value: Value): State {
    State([value], 0, 0, None, [Resting], Build(0, [], map[0 := value]))
  }

  /** The state of the one builder, and what it has published. */
  function With(s: State, phase: Phase): State {
    s.(builders := [phase])
  }

  const BUMP := [OpenMutation, BumpMutation]
  const BEGIN := [Judge(0), NoteRevision(0), NoteSignature(0)]
  const END := [OpenApplication, Write(0, 7), ReadField(0, 0), RollBack, Publish(0)]

  function NoSizes(): Watch { Watch(fields => []) }

  /** A mutation leads to revision 1. */
  lemma LostBump(w: Watch, s: State)
    requires s.writers == 0 && s.revision == 0
    ensures EnabledRun(w, s, BUMP) && After(w, s, BUMP) == s.(revision := 1)
  {
    hide EnabledRun, After;
    var s1, s2 := s.(writers := 1), s.(revision := 1);
    NothingRuns(w, s2);
    FirstStep(w, s1, [BumpMutation], [], s2);
    FirstStep(w, s, BUMP, [BumpMutation], s1);
  }

  /** A rebuild has begun, with that revision noted. */
  lemma LostBegin(s: State)
    requires s == Fresh(1).(revision := 1)
    ensures var w, run := NoSizes(), BEGIN;
            EnabledRun(w, s, run) && After(w, s, run) == With(s, Reading(Build(1, [], map[])))
  {
    hide EnabledRun, After;
    var w := NoSizes();
    var s1, s2 := With(s, FoundStale), With(s, Noted(1));
    var s3 := With(s, Reading(Build(1, [], map[])));
    var t2, t1 := [NoteSignature(0)], [NoteRevision(0), NoteSignature(0)];
    NothingRuns(w, s3);
    FirstStep(w, s2, t2, [], s3);
    FirstStep(w, s1, t1, t2, s2);
    FirstStep(w, s, BEGIN, t1, s1);
  }

  /** It reads a value that an application takes back, and publishes it. */
  lemma LostEnd(s: State)
    requires s == With(Fresh(1).(revision := 1), Reading(Build(1, [], map[])))
    ensures var w := NoSizes();
            && EnabledRun(w, s, END)
            && After(w, s, END)
               == Fresh(1).(revision := 1, published := Build(1, [], map[0 := 7]))
  {
    hide EnabledRun, After;
    var w := NoSizes();
    var s1 := s.(application := Some([1]));
    var s2 := s1.(config := [7]);
    var s3 := With(s2, Reading(Build(1, [], map[0 := 7])));
    var s4 := With(s, Reading(Build(1, [], map[0 := 7])));
    var s5 := Fresh(1).(revision := 1, published := Build(1, [], map[0 := 7]));
    var t4, t3 := [Publish(0)], [RollBack, Publish(0)];
    var t2 := [ReadField(0, 0), RollBack, Publish(0)];
    var t1 := [Write(0, 7), ReadField(0, 0), RollBack, Publish(0)];
    NothingRuns(w, s5);
    FirstStep(w, s4, t4, [], s5);
    FirstStep(w, s3, t3, t4, s4);
    FirstStep(w, s2, t2, t3, s3);
    FirstStep(w, s1, t1, t2, s2);
    FirstStep(w, s, END, t1, s1);
  }

  lemma FirstStep(w: Watch, s: State, steps: seq<Step>, later: seq<Step>, next: State)
    requires steps != [] && later == steps[1..] && Enabled(s, steps[0]) && Next(w, s, steps[0]) == next
    requires EnabledRun(w, next, later)
    ensures EnabledRun(w, s, steps) && After(w, s, steps) == After(w, next, later)
  {
  }

  /** A rebuild that reads while an application is at work and that outlives its roll-back publishes
      checks nobody configured, and the pipeline does not find itself stale. */
  lemma RollBackLost()
    ensures var w, s, run := NoSizes(), Fresh(1), BUMP + (BEGIN + END);
            Init(w, s) && EnabledRun(w, s, run) && !Safe(w, After(w, s, run))
  {
    hide EnabledRun, After;
    var w, s := NoSizes(), Fresh(1);
    LostBump(w, s);
    var bumped := After(w, s, BUMP);
    LostBegin(bumped);
    LostEnd(After(w, bumped, BEGIN));
    RunConcat(w, bumped, BEGIN, END);
    RunConcat(w, s, BUMP, BEGIN + END);
    var last := After(w, s, BUMP + (BEGIN + END));
    assert last.published.read[0] == 7 != last.config[0];
  }

  // ---------------------------------------------------------------- a rebuild that is let alone

  function Reads(b: nat, count: nat): seq<Step> {
    if count == 0 then [] else Reads(b, count - 1) + [ReadField(b, count - 1)]
  }

  function Rebuild(b: nat, count: nat): seq<Step> {
    [Judge(b), NoteRevision(b), NoteSignature(b)] + Reads(b, count) + [Publish(b)]
  }

  lemma {:induction false} RunConcat(w: Watch, s: State, a: seq<Step>, c: seq<Step>)
    requires EnabledRun(w, s, a) && EnabledRun(w, After(w, s, a), c)
    ensures EnabledRun(w, s, a + c) && After(w, s, a + c) == After(w, After(w, s, a), c)
    decreases |a|
  {
    hide Next, Enabled;
    if a == [] {
      assert a + c == c;
    } else {
      assert (a + c)[0] == a[0] && (a + c)[1..] == a[1..] + c;
      RunConcat(w, Next(w, s, a[0]), a[1..], c);
    }
  }

  lemma {:induction false} ReadsRun(w: Watch, s: State, b: nat, count: nat)
    requires b < |s.builders| && s.builders[b].Reading? && !Mutating(s) && count <= |s.config|
    ensures EnabledRun(w, s, Reads(b, count))
    ensures var after := After(w, s, Reads(b, count));
            && after == s.(builders := after.builders) && |after.builders| == |s.builders|
            && after.builders[b].Reading?
            && var build := after.builders[b].build;
               && build.revision == s.builders[b].build.revision && build.signature == s.builders[b].build.signature
               && forall f :: 0 <= f < count ==> f in build.read && build.read[f] == s.config[f]
  {
    if count > 0 {
      ReadsRun(w, s, b, count - 1);
      var before := After(w, s, Reads(b, count - 1));
      var step := ReadField(b, count - 1);
      NothingRuns(w, Next(w, before, step));
      FirstStep(w, before, [step], [], Next(w, before, step));
      RunConcat(w, s, Reads(b, count - 1), [step]);
    }
  }

  /** A rebuild that nobody disturbs leaves the pipeline fresh. */
  lemma SoloRebuild(w: Watch, s: State, b: nat)
    requires b < |s.builders| && s.builders[b].Resting? && !Mutating(s) && IsStale(w, s)
    ensures EnabledRun(w, s, Rebuild(b, |s.config|))
    ensures var after := After(w, s, Rebuild(b, |s.config|));
            && !IsStale(w, after) && after.config == s.config && !Mutating(after)
            && forall f :: 0 <= f < |s.config| ==> f in after.published.read && after.published.read[f] == s.config[f]
  {
    hide EnabledRun, After, Reads;
    var s1, s2 := s.(builders := s.builders[b := FoundStale]), s.(builders := s.builders[b := Noted(s.revision)]);
    var s3 := s.(builders := s.builders[b := Reading(Build(s.revision, w.sizes(s.config), map[]))]);
    var reading := Reads(b, |s.config|);
    ReadsRun(w, s3, b, |s.config|);
    var s4 := After(w, s3, reading);
    NothingRuns(w, Next(w, s4, Publish(b)));
    FirstStep(w, s4, [Publish(b)], [], Next(w, s4, Publish(b)));
    RunConcat(w, s3, reading, [Publish(b)]);
    var tail := reading + [Publish(b)];
    FirstStep(w, s2, [NoteSignature(b)] + tail, tail, s3);
    FirstStep(w, s1, [NoteRevision(b), NoteSignature(b)] + tail, [NoteSignature(b)] + tail, s2);
    FirstStep(w, s, Rebuild(b, |s.config|), [NoteRevision(b), NoteSignature(b)] + tail, s1);
  }

  lemma NothingRuns(w: Watch, s: State)
    ensures EnabledRun(w, s, []) && After(w, s, []) == s
  {
  }

  // ---------------------------------------------------------------- the pipeline object, by itself

  class LiveConfig {
    var fields: Fields
    var revision: nat

    constructor (initial: Fields)
      ensures fields == initial && revision == 0
    {
      fields, revision := initial, 0;
    }

    method BumpRevision()
      modifies this`revision
      ensures revision == old(revision) + 1
    {
      revision := revision + 1;
    }
  }

  class SecurityCheckPipeline {
    const config: LiveConfig
    var checks: map<nat, Value>
    var builtRevision: nat
    var builtSignature: seq<nat>

    constructor (cfg: LiveConfig, w: Watch, initial: map<nat, Value>)
      ensures config == cfg && checks == initial
      ensures builtRevision == cfg.revision && builtSignature == w.sizes(cfg.fields)
    {
      config := cfg;
      checks := initial;
      builtRevision := cfg.revision;
      builtSignature := w.sizes(cfg.fields);
    }

    /** The state of this pipeline as the protocol sees it, with nothing else going on. */
    ghost function Alone(): State
      reads this, config
    {
      State(config.fields, config.revision, 0, None, [Resting], Build(builtRevision, builtSignature, checks))
    }

    method Stale(w: Watch) returns (stale: bool)
      ensures stale <==> IsStale(w, Alone())
    {
      if config.revision != builtRevision {
        return true;
      }
      var current := w.sizes(config.fields);
      return current != builtSignature;
    }

    /** One call that nobody disturbs: a stale pipeline ends up built from the configuration, a
        fresh one is left alone. */
    method RebuildIfStale(w: Watch)
      modifies this
      ensures !IsStale(w, Alone())
      ensures if old(IsStale(w, Alone()))
              then Complete(Alone().published, |config.fields|) &&
                   forall f :: 0 <= f < |config.fields| ==> checks[f] == config.fields[f]
              else checks == old(checks)
    {
      var stale := Stale(w);
      if !stale {
        return;
      }
      var revision := config.revision;
      var signature := w.sizes(config.fields);
      var built: map<nat, Value> := map[];
      for f := 0 to |config.fields|
        invariant forall k :: 0 <= k < f ==> k in built && built[k] == config.fields[k]
      {
        built := built[f := config.fields[f]];
      }
      checks := built;
      builtRevision := revision;
      builtSignature := signature;
    }
  }
}
