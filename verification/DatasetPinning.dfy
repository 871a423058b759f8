/** Which build of a replay dataset a campaign measures on: every campaign pinned
    to a build reads it, and a rebuild of the profile writes it
    (backend/app/datasets/pinning.py, refresh.py, profiles.py, driven by
    backend/app/control/orchestrator/supervisor.py and backend/app/api/datasets.py). */
module DatasetPinning {
  import opened Text

  datatype BuildState = Pending | Ready | Failed

  datatype Policy = RebuildAtStart | UseCurrent

  /** `Idle`: a draft, scheduled or paused. */
  datatype Status = Active | Idle | Done

  /** `pin`: the build it is held to; `row`: the build it asked for and polls;
      `unavailable`: it concluded there is none. */
  datatype Campaign = Campaign(policy: Policy, status: Status, pin: Option<nat>, row: Option<nat>, unavailable: bool)

  /** One profile: its build rows, by id, the one it points at, and the
      campaigns that name the profile. */
  datatype State = State(builds: seq<BuildState>, current: Option<nat>, campaigns: seq<Campaign>)

  datatype Step =
    | Start(policy: Policy)
    | Advance(c: nat)                                    // the supervisor settles a campaign's pin
    | Refresh(due: bool)                                 // the supervisor's timed sample
    | Collect(force: bool)                               // a person asks for a sample
    | Publish | Fail                                     // the build in flight ends
    | SetStatus(c: nat, status: Status)
    | PluginPin(c: nat, build: Option<nat>, settled: bool)

  // ---- The rules ----

  datatype Decision = Adopt | Rebuild | TakeCurrent

  function Decide(policy: Policy, current: Option<nat>, held: bool): Decision {
    if current.None? then Rebuild
    else if held then Adopt
    else if policy == RebuildAtStart then Rebuild
    else TakeCurrent
  }

  /** LLMBench builds one at a time, so only the newest row can be in flight. */
  predicate InFlight(s: State) {
    s.builds != [] && s.builds[|s.builds| - 1] == Pending
  }

  predicate Holding(c: Campaign) {
    c.status != Done && c.pin.Some?
  }

  /** An unfinished campaign is pinned to the current build. */
  predicate Held(s: State) {
    s.current.Some? && exists c :: c in s.campaigns && c.status != Done && c.pin == s.current
  }

  function Triggered(s: State): State {
    if InFlight(s) then s else s.(builds := s.builds + [Pending])
  }

  function With(s: State, i: nat, c: Campaign): State
    requires i < |s.campaigns|
  {
    s.(campaigns := s.campaigns[i := c])
  }

  function Pinned(c: Campaign, build: Option<nat>): Campaign {
    c.(pin := build, row := None)
  }

  /** First time round: take the current build, or ask for a new one. */
  function Choose(s: State, i: nat): State
    requires i < |s.campaigns|
  {
    var c := s.campaigns[i];
    if Decide(c.policy, s.current, Held(s)) != Rebuild then With(s, i, Pinned(c, s.current))
    else
      // In flight already: poll the row someone else asked for.
      var t := Triggered(s);
      With(t, i, c.(row := Some(|t.builds| - 1)))
  }

  /** Later: see how the build asked for ended. */
  function Poll(s: State, i: nat, r: nat): State
    requires i < |s.campaigns| && r < |s.builds|
  {
    var c := s.campaigns[i];
    match s.builds[r]
    case Pending => s
    case Ready => With(s, i, Pinned(c, Some(r)))
    case Failed =>
      if s.current.Some? then With(s, i, Pinned(c, s.current))
      else With(s, i, c.(row := None, unavailable := true))
  }

  predicate Unsettled(s: State, i: nat) {
    i < |s.campaigns| && var c := s.campaigns[i];
    c.status == Active && c.pin.None? && !c.unavailable
  }

  predicate Valid(s: State) {
    && (forall i :: 0 <= i < |s.builds| - 1 ==> s.builds[i] != Pending)
    && Published(s, s.current)
    && (forall c :: c in s.campaigns ==> Published(s, c.pin) && (c.row.Some? ==> c.row.value < |s.builds|))
  }

  predicate Published(s: State, build: Option<nat>) {
    build.Some? ==> build.value < |s.builds| && s.builds[build.value] == Ready
  }

  function Ended(s: State, how: BuildState): State
    requires InFlight(s)
  {
    s.(builds := s.builds[|s.builds| - 1 := how],
       current := if how == Ready then Some(|s.builds| - 1) else s.current)
  }

  function After(s: State, step: Step): State
    requires Valid(s)
  {
    match step
    case Start(policy) => s.(campaigns := s.campaigns + [Campaign(policy, Active, None, None, false)])
    case Advance(c) =>
      if !Unsettled(s, c) then s
      else if s.campaigns[c].row.Some? then
        assert s.campaigns[c] in s.campaigns;
        Poll(s, c, s.campaigns[c].row.value)
      else Choose(s, c)
    case Refresh(due) => if due && !InFlight(s) && !Held(s) then Triggered(s) else s
    case Collect(force) => if Held(s) && !force then s else Triggered(s)
    case Publish => if InFlight(s) then Ended(s, Ready) else s
    case Fail => if InFlight(s) then Ended(s, Failed) else s
    case SetStatus(c, status) =>
      if c < |s.campaigns| then With(s, c, s.campaigns[c].(status := status)) else s
    case PluginPin(c, build, settled) =>
      if c < |s.campaigns| && Published(s, build) then
        With(s, c, Pinned(s.campaigns[c], build).(unavailable := build.None? && settled))
      else s
  }

  // ---- What is promised, and exactly what breaks it ----

  /** Every unfinished campaign that is pinned is pinned to the current build,
      the one the benchmark replays. */
  predicate Safe(s: State) {
    forall c :: c in s.campaigns && Holding(c) ==> c.pin == s.current
  }

  /** Safe, and no build is on its way under a campaign that holds one. */
  predicate Secure(s: State) {
    Safe(s) && (InFlight(s) ==> forall c :: c in s.campaigns ==> !Holding(c))
  }

  /** Secure is safe now and safe however the build in flight ends. */
  lemma SecureMeansSafeNextToo(s: State)
    requires Valid(s)
    ensures Secure(s) <==> Safe(s) && Safe(After(s, Publish)) && Safe(After(s, Fail))
  {
    if InFlight(s) && exists c :: c in s.campaigns && Holding(c) {
      var c :| c in s.campaigns && Holding(c);
      assert Published(s, c.pin);
      assert c in After(s, Publish).campaigns;
    }
  }

  /** The steps that break it, told from the state before. */
  predicate Breaks(s: State, step: Step)
    requires Valid(s)
  {
    match step
    case Advance(i) =>
      Unsettled(s, i) && var c := s.campaigns[i];
      if c.row.None? then
        // the current build, taken while its successor is on the way
        Decide(c.policy, s.current, Held(s)) != Rebuild && InFlight(s)
      else
        assert c in s.campaigns;
        var build := s.builds[c.row.value];
        // the build asked for, published and since replaced or being replaced
        || (build == Ready && (c.row != s.current || InFlight(s)))
        || (build == BuildState.Failed && s.current.Some? && InFlight(s))
    case Collect(force) => force && Held(s) && !InFlight(s)
    case SetStatus(i, status) =>
      // a finished campaign reopened
      && i < |s.campaigns| && status != Done && s.campaigns[i].status == Done && s.campaigns[i].pin.Some?
      && (s.campaigns[i].pin != s.current || InFlight(s))
    case PluginPin(i, build, _) =>
      && i < |s.campaigns| && build.Some? && Published(s, build) && s.campaigns[i].status != Done
      && (build != s.current || InFlight(s))
    case _ => false
  }

  predicate WellFormed(s: State, c: Campaign) {
    Published(s, c.pin) && (c.row.Some? ==> c.row.value < |s.builds|)
  }

  lemma WithValid(s: State, i: nat, c: Campaign)
    requires Valid(s) && i < |s.campaigns| && WellFormed(s, c)
    ensures Valid(With(s, i, c))
  {
    var t := With(s, i, c);
    forall d | d in t.campaigns ensures WellFormed(t, d) {
      assert d == c || d in s.campaigns;
    }
  }

  lemma TriggeredValid(s: State)
    requires Valid(s)
    ensures Valid(Triggered(s))
  {
  }

  lemma EndedValid(s: State, how: BuildState)
    requires Valid(s) && InFlight(s) && how != Pending
    ensures Valid(Ended(s, how))
  {
    var t := Ended(s, how);
    forall c | c in t.campaigns ensures WellFormed(t, c) {
      assert WellFormed(s, c);
    }
  }

  lemma StaysValid(s: State, step: Step)
    requires Valid(s)
    ensures Valid(After(s, step))
  {
    forall i | 0 <= i < |s.campaigns| ensures WellFormed(s, s.campaigns[i]) {
      assert s.campaigns[i] in s.campaigns;
    }
    assert Published(s, s.current);
    hide Valid, Held;
    TriggeredValid(s);
    match step
    case Advance(i) =>
      if Unsettled(s, i) {
        var c, t := s.campaigns[i], Triggered(s);
        WithValid(s, i, Pinned(c, s.current));
        if c.row.Some? && s.builds[c.row.value] == Ready {
          WithValid(s, i, Pinned(c, c.row));
        }
        WithValid(s, i, c.(row := None, unavailable := true));
        if c.row.None? && Decide(c.policy, s.current, Held(s)) == Rebuild {
          WithValid(t, i, c.(row := Some(|t.builds| - 1)));
        }
      }
    case SetStatus(i, status) =>
      if i < |s.campaigns| {
        WithValid(s, i, s.campaigns[i].(status := status));
      }
    case PluginPin(i, build, settled) =>
      if i < |s.campaigns| && Published(s, build) {
        WithValid(s, i, Pinned(s.campaigns[i], build).(unavailable := build.None? && settled));
      }
    case Start(policy) => StartValid(s, policy);
    case Publish => if InFlight(s) { EndedValid(s, Ready); }
    case Fail => if InFlight(s) { EndedValid(s, BuildState.Failed); }
    case _ =>
  }

  lemma StartValid(s: State, policy: Policy)
    requires Valid(s)
    ensures Valid(After(s, Start(policy)))
  {
  }

  /** Changing one campaign and nothing else. */
  lemma OneChanged(s: State, i: nat, c: Campaign)
    requires Secure(s) && i < |s.campaigns|
    ensures Secure(With(s, i, c)) <==> (Holding(c) ==> c.pin == s.current && !InFlight(s))
  {
    var t := With(s, i, c);
    assert t.campaigns[i] == c && c in t.campaigns;
    assert forall d :: d in t.campaigns ==> d == c || d in s.campaigns;
  }

  /** A build may start exactly when no unfinished campaign holds one. */
  lemma Starting(s: State)
    requires Valid(s) && Secure(s)
    ensures Secure(Triggered(s)) <==> (Held(s) ==> InFlight(s))
  {
    if Held(s) {
      var c :| c in s.campaigns && c.status != Done && c.pin == s.current;
      assert Holding(c);
    }
  }

  /** From a secure state a step leads to a secure one exactly when it is not one
      of the breaking ones. */
  lemma SecureExactlyUnlessBroken(s: State, step: Step)
    requires Valid(s) && Secure(s)
    ensures Secure(After(s, step)) <==> !Breaks(s, step)
  {
    hide Valid, Held, Secure;
    match step
    case Advance(i) =>
      if Unsettled(s, i) && s.campaigns[i].row.Some? {
        PollExact(s, i);
      } else if Unsettled(s, i) {
        ChooseExact(s, i);
      }
    case Collect(_) => Starting(s);
    case Refresh(_) => Starting(s);
    case SetStatus(i, status) => StatusExact(s, i, status);
    case PluginPin(i, build, settled) =>
      if i < |s.campaigns| && Published(s, build) {
        OneChanged(s, i, Pinned(s.campaigns[i], build).(unavailable := build.None? && settled));
      }
    case Start(policy) => StartKeeps(s, policy);
    case _ => EndKeeps(s, step);
  }

  lemma PollExact(s: State, i: nat)
    requires Valid(s) && Secure(s) && Unsettled(s, i) && s.campaigns[i].row.Some?
    ensures Secure(After(s, Advance(i))) <==> !Breaks(s, Advance(i))
  {
    var c := s.campaigns[i];
    assert c in s.campaigns;
    hide Secure, Held;
    OneChanged(s, i, Pinned(c, c.row));
    OneChanged(s, i, Pinned(c, s.current));
    OneChanged(s, i, c.(row := None, unavailable := true));
  }

  lemma ChooseExact(s: State, i: nat)
    requires Valid(s) && Secure(s) && Unsettled(s, i) && s.campaigns[i].row.None?
    ensures Secure(After(s, Advance(i))) <==> !Breaks(s, Advance(i))
  {
    var c, t := s.campaigns[i], Triggered(s);
    Starting(s);
    if Decide(c.policy, s.current, Held(s)) != Rebuild {
      hide Secure, Held;
      OneChanged(s, i, Pinned(c, s.current));
    } else {
      assert !Held(s);
      hide Secure, Held;
      OneChanged(t, i, c.(row := Some(|t.builds| - 1)));
    }
  }

  lemma StatusExact(s: State, i: nat, status: Status)
    requires Valid(s) && Secure(s)
    ensures Secure(After(s, SetStatus(i, status))) <==> !Breaks(s, SetStatus(i, status))
  {
    if i < |s.campaigns| {
      var c := s.campaigns[i];
      assert c in s.campaigns;
      assert Holding(c) ==> c.pin == s.current && !InFlight(s);
      hide Secure, Held;
      OneChanged(s, i, c.(status := status));
    }
  }

  lemma StartKeeps(s: State, policy: Policy)
    requires Valid(s) && Secure(s)
    ensures Secure(After(s, Start(policy)))
  {
  }

  lemma EndKeeps(s: State, step: Step)
    requires Valid(s) && Secure(s) && (step == Publish || step == Fail)
    ensures Secure(After(s, step))
  {
  }

  // ---- Every run ----

  function Run(s: State, steps: seq<Step>): (t: State)
    requires Valid(s)
    ensures Valid(t)
  {
    if steps == [] then s
    else
      var before := Run(s, steps[..|steps| - 1]);
      StaysValid(before, steps[|steps| - 1]);
      After(before, steps[|steps| - 1])
  }

  /** No step of the run breaks it. */
  ghost predicate Unbroken(s: State, steps: seq<Step>)
    requires Valid(s)
  {
    forall i :: 0 <= i < |steps| ==> !Breaks(Run(s, steps[..i]), steps[i])
  }

  /** Without a breaking step every pinned campaign stays on the current build,
      at each point of the run. */
  lemma {:induction false} UnbrokenIsSafe(s: State, steps: seq<Step>)
    requires Valid(s) && Secure(s) && Unbroken(s, steps)
    ensures Secure(Run(s, steps)) && Safe(Run(s, steps))
  {
    hide Secure, Breaks, After;
    if steps == [] {
      hide *;
      OnlySafe(s);
    } else {
      var init := steps[..|steps| - 1];
      forall i | 0 <= i < |init| ensures !Breaks(Run(s, init[..i]), init[i]) {
        assert init[..i] == steps[..i];
      }
      UnbrokenIsSafe(s, init);
      SecureExactlyUnlessBroken(Run(s, init), steps[|steps| - 1]);
      OnlySafe(Run(s, steps));
    }
  }

  lemma OnlySafe(s: State)
    ensures Secure(s) ==> Safe(s)
  {
  }

  /** The first breaking step of a run leaves a campaign pinned to what is not
      current, or will as soon as the build in flight is published. */
  lemma FirstBreakHarms(s: State, steps: seq<Step>, step: Step)
    requires Valid(s) && Secure(s) && Unbroken(s, steps) && Breaks(Run(s, steps), step)
    ensures var t := Run(s, steps + [step]); !Safe(t) || !Safe(After(t, Publish)) || !Safe(After(t, Fail))
  {
    UnbrokenIsSafe(s, steps);
    assert (steps + [step])[..|steps|] == steps;
    SecureExactlyUnlessBroken(Run(s, steps), step);
    var t := Run(s, steps + [step]);
    hide Secure, Breaks, Safe, Run;
    SecureMeansSafeNextToo(t);
  }

  // ---- With each request, its build and the pin taken as one step ----

  datatype Whole =
    | Begin(policy: Policy)
    | Settle(c: nat, ok: bool)          // choose, wait for the build, pin it
    | Sample(due: bool, ok: bool)       // the timed sample, published
    | Ask(ok: bool)                     // a person's sample, not forced, published
    | Move(c: nat, status: Status)      // pause, resume, finish; a finished one stays so

  function Ends(ok: bool): Step { if ok then Publish else Fail }

  function Steps(s: State, w: Whole): seq<Step> {
    match w
    case Begin(policy) => [Start(policy)]
    case Settle(c, ok) => [Advance(c), Ends(ok), Advance(c)]
    case Sample(due, ok) => [Refresh(due), Ends(ok)]
    case Ask(ok) => [Collect(false), Ends(ok)]
    case Move(c, status) => if c < |s.campaigns| && s.campaigns[c].status == Done then [] else [SetStatus(c, status)]
  }

  /** Between whole steps: secure, nothing in flight, nobody waiting for a row. */
  predicate Quiet(s: State) {
    Safe(s) && !InFlight(s) && forall c :: c in s.campaigns ==> c.row.None?
  }

  function RunWhole(s: State, ws: seq<Whole>): (t: State)
    requires Valid(s)
    ensures Valid(t)
  {
    if ws == [] then s
    else
      var before := RunWhole(s, ws[..|ws| - 1]);
      Run(before, Steps(before, ws[|ws| - 1]))
  }

  /** Then no run of any length, mixing policies, samples, pauses and finishes,
      ever separates a campaign from the current build. */
  lemma {:induction false} WholeStepsAreSafe(s: State, ws: seq<Whole>)
    requires Valid(s) && Quiet(s)
    ensures Quiet(RunWhole(s, ws))
  {
    hide Quiet, Run, Steps;
    if ws != [] {
      WholeStepsAreSafe(s, ws[..|ws| - 1]);
      WholeStepQuiet(RunWhole(s, ws[..|ws| - 1]), ws[|ws| - 1]);
    }
  }

  lemma One(s: State, a: Step)
    requires Valid(s)
    ensures Run(s, [a]) == After(s, a)
  {
    assert [a][..0] == [];
  }

  lemma Two(s: State, a: Step, b: Step)
    requires Valid(s) && Valid(After(s, a))
    ensures Run(s, [a, b]) == After(After(s, a), b)
  {
    hide After, Valid;
    One(s, a);
    assert [a, b][..1] == [a];
  }

  lemma Three(s: State, a: Step, b: Step, c: Step)
    requires Valid(s) && Valid(After(s, a)) && Valid(After(After(s, a), b))
    ensures Run(s, [a, b, c]) == After(After(After(s, a), b), c)
  {
    hide After, Valid;
    Two(s, a, b);
    assert [a, b, c][..2] == [a, b];
  }

  lemma WholeStepQuiet(s: State, w: Whole)
    requires Valid(s) && Quiet(s)
    ensures Quiet(Run(s, Steps(s, w)))
  {
    hide Run;
    match w
    case Begin(policy) =>
      One(s, Start(policy));
    case Settle(c, ok) => SettleQuiet(s, c, ok);
    case Sample(due, ok) => SampleQuiet(s, Refresh(due), ok);
    case Ask(ok) => SampleQuiet(s, Collect(false), ok);
    case Move(c, status) =>
      if c < |s.campaigns| && s.campaigns[c].status == Done {
        EmptyRun(s);
      } else {
        One(s, SetStatus(c, status));
        SecureExactlyUnlessBroken(s, SetStatus(c, status));
        MoveRows(s, c, status);
      }
  }

  lemma EmptyRun(s: State)
    requires Valid(s)
    ensures Run(s, []) == s
  {
  }

  lemma MoveRows(s: State, c: nat, status: Status)
    requires Valid(s) && Quiet(s)
    ensures var t := After(s, SetStatus(c, status)); !InFlight(t) && forall d :: d in t.campaigns ==> d.row.None?
  {
    assert c < |s.campaigns| ==> s.campaigns[c] in s.campaigns;
  }

  lemma SampleQuiet(s: State, ask: Step, ok: bool)
    requires Valid(s) && Quiet(s) && (ask.Refresh? || ask == Collect(false))
    ensures Quiet(Run(s, [ask, Ends(ok)]))
  {
    var t := After(s, ask);
    StaysValid(s, ask);
    SecureExactlyUnlessBroken(s, ask);
    SecureExactlyUnlessBroken(t, Ends(ok));
    hide Run, Valid, Held;
    Two(s, ask, Ends(ok));
  }

  /** Campaign `c` waits for the build in flight, and nobody else for any. */
  predicate Asking(s: State, c: nat) {
    && InFlight(s) && Unsettled(s, c) && s.campaigns[c].row == Some(|s.builds| - 1)
    && (forall i :: 0 <= i < |s.campaigns| && i != c ==> s.campaigns[i].row.None?)
  }

  lemma Chosen(s: State, c: nat)
    requires Valid(s) && Quiet(s)
    ensures var t := After(s, Advance(c)); (Quiet(t) && !Unsettled(t, c)) || (Secure(t) && Asking(t, c))
  {
    SecureExactlyUnlessBroken(s, Advance(c));
    assert forall i :: 0 <= i < |s.campaigns| ==> s.campaigns[i] in s.campaigns;
    hide Valid, Held;
  }

  lemma Answered(t: State, c: nat, ok: bool)
    requires Valid(t) && Secure(t) && Asking(t, c) && Valid(After(t, Ends(ok)))
    ensures Quiet(After(After(t, Ends(ok)), Advance(c)))
  {
    var u := After(t, Ends(ok));
    SecureExactlyUnlessBroken(t, Ends(ok));
    SecureExactlyUnlessBroken(u, Advance(c));
    hide Valid, Held;
  }

  lemma SettleQuiet(s: State, c: nat, ok: bool)
    requires Valid(s) && Quiet(s)
    ensures Quiet(Run(s, [Advance(c), Ends(ok), Advance(c)]))
  {
    hide Run, Valid, Held, Secure, Asking;
    var t := After(s, Advance(c));
    StaysValid(s, Advance(c));
    StaysValid(t, Ends(ok));
    Three(s, Advance(c), Ends(ok), Advance(c));
    Chosen(s, c);
    if Quiet(t) && !Unsettled(t, c) {
      assert After(t, Ends(ok)) == t;
    } else {
      hide After;
      Answered(t, c, ok);
    }
  }

  // ---- The two ways it goes wrong when builds take time ----

  function Fresh(row: Option<nat>): Campaign { Campaign(RebuildAtStart, Active, None, row, false) }

  function Asks(pin: Option<nat>): Campaign { Campaign(UseCurrent, Active, pin, None, false) }

  const BUILT := State([Ready], Some(0), [Fresh(None), Asks(None)])

  lemma FirstAsks()
    ensures Valid(BUILT) && Quiet(BUILT)
    ensures After(BUILT, Advance(0)) == State([Ready, Pending], Some(0), [Fresh(Some(1)), Asks(None)])
  {
    assert Decide(RebuildAtStart, BUILT.current, Held(BUILT)) == Rebuild;
  }

  lemma SecondTakes(s: State)
    requires s == State([Ready, Pending], Some(0), [Fresh(Some(1)), Asks(None)]) && Valid(s)
    ensures After(s, Advance(1)) == State([Ready, Pending], Some(0), [Fresh(Some(1)), Asks(Some(0))])
  {
    assert Decide(UseCurrent, s.current, Held(s)) == TakeCurrent;
  }

  lemma Unsafe(s: State, i: nat)
    requires i < |s.campaigns| && Holding(s.campaigns[i]) && s.campaigns[i].pin != s.current
    ensures !Safe(s)
  {
    assert s.campaigns[i] in s.campaigns;
  }

  /** One campaign asks for a fresh build; before it is published another takes
      the current one; then it is published. */
  lemma TakenWhileReplaced()
    ensures Valid(BUILT) && Quiet(BUILT)
    ensures !Safe(Run(BUILT, [Advance(0), Advance(1), Publish]))
  {
    FirstAsks();
    var t := After(BUILT, Advance(0));
    StaysValid(BUILT, Advance(0));
    SecondTakes(t);
    var u := After(t, Advance(1));
    StaysValid(t, Advance(1));
    Three(BUILT, Advance(0), Advance(1), Publish);
    hide Run, Valid, Quiet, Safe, Held;
    Unsafe(After(u, Publish), 1);
  }

  /** Even with each build published as soon as it is asked for: a person's
      sample comes between a campaign's build and its pin. */
  lemma PinnedAfterReplaced()
    ensures Valid(BUILT)
    ensures !Safe(Run(Run(BUILT, [Advance(0), Publish]), [Collect(false), Publish, Advance(0)]))
  {
    FirstAsks();
    var t := After(BUILT, Advance(0));
    StaysValid(BUILT, Advance(0));
    Two(BUILT, Advance(0), Publish);
    StaysValid(t, Publish);
    var u := After(t, Publish);
    assert u == State([Ready, Ready], Some(1), [Fresh(Some(1)), Asks(None)]);
    hide Run, Quiet, Safe;
    SampledUnder(u);
  }

  lemma SampledUnder(u: State)
    requires Valid(u) && u == State([Ready, Ready], Some(1), [Fresh(Some(1)), Asks(None)])
    ensures !Safe(Run(u, [Collect(false), Publish, Advance(0)]))
  {
    assert !Held(u);
    StaysValid(u, Collect(false));
    hide Run, Valid, Held, Safe;
    var v := After(u, Collect(false));
    StaysValid(v, Publish);
    var w := After(v, Publish);
    Three(u, Collect(false), Publish, Advance(0));
    assert w == State([Ready, Ready, Ready], Some(2), [Fresh(Some(1)), Asks(None)]);
    Unsafe(After(w, Advance(0)), 0);
  }

  // ---- Was this result measured on the pinned build? ----

  predicate SameDataset(pinnedSha: string, reportedSha: string) {
    if pinnedSha == "" || reportedSha == "" then false
    else
      var n := if |pinnedSha| < |reportedSha| then |pinnedSha| else |reportedSha|;
      pinnedSha[..n] == reportedSha[..n]
  }

  /** What a campaign is held to: no profile, or a build id and its hash. */
  datatype Pin = Pin(profile: string, build: string, sha: string)

  /** The build id and the hash a result reports, each "" when it does not. */
  function Mismatch(pin: Pin, build: string, sha: string): Option<(string, string)> {
    if pin.profile == "" || pin.build == "" then None
    else if build == "" && sha == "" then None
    else if SameDataset(pin.sha, sha) then None
    else if sha == "" && build == pin.build then None
    else Some((build, sha))
  }

  predicate Comparable(pin: Pin, build: string, sha: string) {
    Mismatch(pin, build, sha).None?
  }

  /** Any two results the campaign ranks together that report hashes of this
      length report the same one. */
  ghost predicate OneHashOf(pin: Pin, n: nat) {
    forall b1: string, s1: string, b2: string, s2: string ::
      |s1| == n && |s2| == n && Comparable(pin, b1, s1) && Comparable(pin, b2, s2) ==> s1 == s2
  }

  /** For a pinned campaign that is so exactly for lengths up to the pinned
      hash's own, or when the pin has no hash, so that none is accepted. */
  lemma OneHashExactly(pin: Pin, n: nat)
    requires pin.profile != "" && pin.build != "" && n > 0
    ensures OneHashOf(pin, n) <==> n <= |pin.sha| || pin.sha == ""
  {
    if n <= |pin.sha| {
      forall b: string, s: string | |s| == n && Comparable(pin, b, s) ensures s == pin.sha[..n] {
        assert s[..n] == s;
      }
    } else if pin.sha != "" {
      var x := pin.sha + seq(n - |pin.sha|, _ => '0');
      var y := pin.sha + seq(n - |pin.sha|, _ => '1');
      assert x[..|pin.sha|] == pin.sha && y[..|pin.sha|] == pin.sha;
      assert x[n - 1] == '0' && y[n - 1] == '1';
      assert Comparable(pin, "", x) && Comparable(pin, "", y);
    }
  }

  const METRIC_SHA_LENGTH := 16

  /** The whole hash and the prefix a benchmark reports are one dataset, and two
      builds are told apart exactly when their prefixes differ. */
  lemma ReportedHashIsRead(pinned: string, built: string)
    requires |pinned| >= METRIC_SHA_LENGTH && |built| >= METRIC_SHA_LENGTH
    ensures SameDataset(pinned, pinned[..METRIC_SHA_LENGTH])
    ensures SameDataset(pinned, built[..METRIC_SHA_LENGTH]) <==>
      pinned[..METRIC_SHA_LENGTH] == built[..METRIC_SHA_LENGTH]
  {
    assert built[..METRIC_SHA_LENGTH][..METRIC_SHA_LENGTH] == built[..METRIC_SHA_LENGTH];
    assert pinned[..METRIC_SHA_LENGTH][..METRIC_SHA_LENGTH] == pinned[..METRIC_SHA_LENGTH];
  }

  // ---- When the timed sample is due ----

  function Later(a: Option<int>, b: Option<int>): Option<int> {
    if a.None? then b else if b.None? then a else if a.value < b.value then b else a
  }

  /** `built`: when the current build was; `failed`: when the last one ended, if
      it failed; times in hours. */
  function DueAt(hours: int, built: Option<int>, failed: Option<int>, now: int): Option<int> {
    if hours <= 0 then None
    else
      var since := Later(built, failed);
      if since.None? then Some(now) else Some(since.value + hours)
  }

  predicate IsDue(hours: int, built: Option<int>, failed: Option<int>, inFlight: bool, now: int) {
    var at := DueAt(hours, built, failed, now);
    at.Some? && !inFlight && at.value <= now
  }

  /** Due means a whole interval has gone by since whatever happened last. */
  lemma DueExactlyAfterTheInterval(hours: int, built: Option<int>, failed: Option<int>, inFlight: bool, now: int)
    ensures IsDue(hours, built, failed, inFlight, now) <==>
      && hours > 0 && !inFlight
      && (built.Some? ==> now - built.value >= hours)
      && (failed.Some? ==> now - failed.value >= hours)
  {
  }

  /** A campaign starts with its pin still to be settled, and every other stays as
      it is. */
  lemma StartsUnsettled(s: State, policy: Policy)
    requires Valid(s)
    ensures var t := After(s, Start(policy));
            && |t.campaigns| == |s.campaigns| + 1 && t.campaigns[..|s.campaigns|] == s.campaigns
            && Unsettled(t, |s.campaigns|) && t.campaigns[|s.campaigns|].policy == policy
            && t.builds == s.builds && t.current == s.current
  {
  }
}
