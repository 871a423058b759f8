/** What a policy session has allocated: its launches and benchmarks, the cards
    and ports they hold, and the idempotency keys they were asked for under
    (backend/app/api/policy_sessions.py). */
module SessionLedger {
  import opened Text

  /** The session's allocation. */
  datatype Session = Session(cards: seq<int>, ports: seq<int>)

  datatype Kind = PolicyLaunch | External

  /** A run's id is its place in the table. `live`: not in a terminal state. */
  datatype Run = Run(
    kind: Kind, live: bool, serving: bool, cards: seq<int>, port: int, key: Option<string>,
    releaseRequested: bool, of: Option<nat>)

  datatype Refusal =
    | NotExploring      // 409
    | Invalid           // 422: the config, the cards or the port asked for
    | Busy              // 429: wait
    | NotServing        // 409
    | NoSuchRun         // 404

  datatype Outcome = Refused(why: Refusal) | Existing(id: nat) | Created(id: nat) | Done

  /** A launch request. `needed` is what the config occupies; `recipe`: the
      campaign has one, so the platform takes the cards when the counts differ;
      `valid` and `fits` are the answers of the config checks. */
  datatype LaunchRequest = LaunchRequest(
    exploring: bool, key: Option<string>, valid: bool, needed: nat, cards: seq<int>, recipe: bool,
    fits: bool, port: Option<int>)

  datatype Call =
    | Launch(req: LaunchRequest)
    | Release(run: nat)
    | Bench(exploring: bool, launch: nat, benchKey: Option<string>)
    | BenchExternal(ok: bool, cards: seq<int>, port: int, externalKey: Option<string>)
    | Serves(run: nat)   // the platform: the engine came up
    | Ends(run: nat)     // the platform: the run reached a terminal state

  // ---- What is held ----

  function BusyCards(runs: seq<Run>): set<int> {
    set r, c | r in runs && r.live && c in r.cards :: c
  }

  function BusyPorts(runs: seq<Run>): set<int> {
    set r | r in runs && r.live && r.port != 0 :: r.port
  }

  /** The run of the session asked for under this key. */
  function ByKey(runs: seq<Run>, key: Option<string>): (id: Option<nat>)
    ensures id.Some? ==> id.value < |runs| && key.Some? && runs[id.value].key == key
    ensures id.None? && key.Some? && key.value != "" ==> forall r :: r in runs ==> r.key != key
  {
    if key.None? || key.value == "" || runs == [] then None
    else if runs[|runs| - 1].key == key then Some(|runs| - 1)
    else ByKey(runs[..|runs| - 1], key)
  }

  function Free(allowed: seq<int>, busy: set<int>): (free: seq<int>)
    ensures forall c :: c in free <==> c in allowed && c !in busy
    ensures |free| <= |allowed|
  {
    if allowed == [] then []
    else (if allowed[0] in busy then [] else [allowed[0]]) + Free(allowed[1..], busy)
  }

  /** The first `needed` free cards of the allocation. */
  function FreeCards(s: Session, runs: seq<Run>, needed: nat): (r: Option<seq<int>>)
    ensures r.Some? ==> |r.value| == needed
    ensures r.None? <==> needed > |Free(s.cards, BusyCards(runs))|
  {
    var free := Free(s.cards, BusyCards(runs));
    if needed > |s.cards| || |free| < needed then None else Some(free[..needed])
  }

  /** The port to use, the one asked for or the first that is free. */
  function PortFor(s: Session, runs: seq<Run>, port: Option<int>): (r: Option<int>)
    ensures r.Some? ==> r.value in s.ports && r.value !in BusyPorts(runs)
    ensures r.Some? && port.Some? ==> r == port
  {
    match port
    case Some(p) => if p in s.ports && p !in BusyPorts(runs) then port else None
    case None => FirstFree(s.ports, BusyPorts(runs))
  }

  function FirstFree(ports: seq<int>, busy: set<int>): (r: Option<int>)
    ensures r.Some? ==> r.value in ports && r.value !in busy
    ensures r.None? ==> forall p :: p in ports ==> p in busy
  {
    if ports == [] then None
    else if ports[0] !in busy then Some(ports[0])
    else FirstFree(ports[1..], busy)
  }

  predicate CardsGranted(s: Session, runs: seq<Run>, cards: seq<int>) {
    (forall c :: c in cards ==> c in s.cards) && (forall c :: c in cards ==> c !in BusyCards(runs))
  }

  /** The cards a launch would hold: those asked for, or, when a recipe decides
      their number, the first that are free. */
  function CardsFor(s: Session, runs: seq<Run>, q: LaunchRequest): Option<seq<int>> {
    if s.cards != [] && q.needed != |q.cards| then
      if q.recipe then FreeCards(s, runs, q.needed) else None
    else Some(q.cards)
  }

  /** Why no cards: 422 for what could never be had, 429 for what is busy. */
  function CardsRefusal(s: Session, q: LaunchRequest): Refusal {
    if !q.recipe || q.needed > |s.cards| then Invalid else Busy
  }

  // ---- The calls ----

  function LaunchOutcome(s: Session, runs: seq<Run>, q: LaunchRequest): (Outcome, Option<Run>) {
    if !q.exploring then (Refused(NotExploring), None)
    else
      var existing := ByKey(runs, q.key);
      if existing.Some? then (Existing(existing.value), None)
      else if !q.valid then (Refused(Invalid), None)
      else
        var cards := CardsFor(s, runs, q);
        if cards.None? then (Refused(CardsRefusal(s, q)), None)
        else if !q.fits then (Refused(Invalid), None)
        else if exists c :: c in cards.value && c !in s.cards then (Refused(Invalid), None)
        else if exists c :: c in cards.value && c in BusyCards(runs) then (Refused(Busy), None)
        else
          var port := PortFor(s, runs, q.port);
          if port.None? then (Refused(if q.port.Some? && q.port.value !in s.ports then Invalid else Busy), None)
          else
            (Created(|runs|), Some(Run(PolicyLaunch, true, false, cards.value, port.value, q.key, false, None)))
  }

  predicate IsLaunch(runs: seq<Run>, id: nat) {
    id < |runs| && runs[id].kind == PolicyLaunch
  }

  function BenchOutcome(runs: seq<Run>, exploring: bool, launch: nat, key: Option<string>): (Outcome, Option<Run>) {
    if !exploring then (Refused(NotExploring), None)
    else if !IsLaunch(runs, launch) then (Refused(NoSuchRun), None)
    else if !runs[launch].serving then (Refused(NotServing), None)
    else
      var existing := ByKey(runs, key);
      if existing.Some? then (Existing(existing.value), None)
      else (Created(|runs|), Some(Run(External, true, false, [], 0, key, false, Some(launch))))
  }

  /** `ok` gathers the checks that do not concern the allocation. */
  function ExternalOutcome(s: Session, runs: seq<Run>, ok: bool, cards: seq<int>, port: int, key: Option<string>)
    : (Outcome, Option<Run>)
  {
    if (s.cards != [] && cards == []) || port !in s.ports then (Refused(Invalid), None)
    else
      var existing := ByKey(runs, key);
      if existing.Some? then (Existing(existing.value), None)
      else if !ok then (Refused(Invalid), None)
      else (Created(|runs|), Some(Run(External, true, false, cards, port, key, false, None)))
  }

  function Plus(runs: seq<Run>, r: Option<Run>): seq<Run> {
    if r.Some? then runs + [r.value] else runs
  }

  function After(s: Session, runs: seq<Run>, call: Call): seq<Run> {
    match call
    case Launch(q) => Plus(runs, LaunchOutcome(s, runs, q).1)
    case Release(id) =>
      if IsLaunch(runs, id) && runs[id].live then runs[id := runs[id].(releaseRequested := true)] else runs
    case Bench(exploring, launch, key) => Plus(runs, BenchOutcome(runs, exploring, launch, key).1)
    case BenchExternal(ok, cards, port, key) => Plus(runs, ExternalOutcome(s, runs, ok, cards, port, key).1)
    case Serves(id) => if id < |runs| && runs[id].live then runs[id := runs[id].(serving := true)] else runs
    case Ends(id) => if id < |runs| then runs[id := runs[id].(live := false, serving := false)] else runs
  }

  function AfterAll(s: Session, runs: seq<Run>, calls: seq<Call>): seq<Run>
    decreases |calls|
  {
    if calls == [] then runs else AfterAll(s, After(s, runs, calls[0]), calls[1..])
  }

  // ---- Allocation safety ----

  predicate Holds(r: Run) { r.live && r.kind == PolicyLaunch }

  ghost predicate Apart(a: Run, b: Run) {
    Holds(a) && Holds(b) ==> (forall c :: c in a.cards ==> c !in b.cards) && a.port != b.port
  }

  ghost predicate Inside(s: Session, r: Run) {
    Holds(r) ==> (forall c :: c in r.cards ==> c in s.cards) && r.port in s.ports
  }

  ghost predicate KeysOnce(runs: seq<Run>) {
    forall i, j :: 0 <= i < j < |runs| && runs[i].key.Some? && runs[i].key.value != "" ==> runs[i].key != runs[j].key
  }

  ghost predicate Safe(s: Session, runs: seq<Run>) {
    && (forall i, j :: 0 <= i < j < |runs| ==> Apart(runs[i], runs[j]))
    && (forall r :: r in runs ==> Inside(s, r))
    && KeysOnce(runs)
  }

  lemma KeysPlus(runs: seq<Run>, r: Run)
    requires KeysOnce(runs) && ByKey(runs, r.key).None?
    ensures KeysOnce(runs + [r])
  {
    var all := runs + [r];
    forall i, j | 0 <= i < j < |all| && all[i].key.Some? && all[i].key.value != ""
      ensures all[i].key != all[j].key
    {
      assert all[i] == runs[i] && runs[i] in runs;
    }
  }

  lemma SafePlus(s: Session, runs: seq<Run>, r: Run)
    requires Safe(s, runs) && Inside(s, r) && ByKey(runs, r.key).None?
    requires forall x :: x in runs ==> Apart(x, r)
    ensures Safe(s, runs + [r])
  {
    hide Apart, Inside, ByKey, KeysOnce;
    KeysPlus(runs, r);
    var all := runs + [r];
    forall i, j | 0 <= i < j < |all|
      ensures Apart(all[i], all[j])
    {
      assert all[i] == runs[i] && runs[i] in runs;
      assert j < |runs| ==> all[j] == runs[j];
    }
  }

  /** A new launch takes what no live run holds. */
  lemma NewLaunchApart(s: Session, runs: seq<Run>, q: LaunchRequest)
    requires 0 !in s.ports && LaunchOutcome(s, runs, q).1.Some?
    ensures var r := LaunchOutcome(s, runs, q).1.value;
            Inside(s, r) && ByKey(runs, r.key).None? && forall x :: x in runs ==> Apart(x, r)
  {
    hide CardsFor, FirstFree;
    var r := LaunchOutcome(s, runs, q).1.value;
    forall x | x in runs
      ensures Apart(x, r)
    {
      if Holds(x) {
        assert forall c :: c in x.cards ==> c in BusyCards(runs);
        assert x.port != 0 ==> x.port in BusyPorts(runs);
      }
    }
  }

  /** Changing a run without making it hold anything new keeps the rest apart. */
  lemma SafeUpdate(s: Session, runs: seq<Run>, id: nat, r: Run)
    requires Safe(s, runs) && id < |runs|
    requires r.key == runs[id].key && r.cards == runs[id].cards && r.port == runs[id].port
    requires Holds(r) ==> Holds(runs[id])
    ensures Safe(s, runs[id := r])
  {
    var all := runs[id := r];
    forall x | x in all
      ensures Inside(s, x)
    {
      if x == r { assert Inside(s, runs[id]); }
    }
    forall i, j | 0 <= i < j < |all|
      ensures Apart(all[i], all[j])
    {
      assert Apart(runs[i], runs[j]);
    }
    forall i, j | 0 <= i < j < |all| && all[i].key.Some? && all[i].key.value != ""
      ensures all[i].key != all[j].key
    {
      assert runs[i].key == all[i].key && runs[j].key == all[j].key;
    }
  }

  lemma BenchPlus(s: Session, runs: seq<Run>, r: Run)
    requires Safe(s, runs) && r.kind == External && ByKey(runs, r.key).None?
    ensures Safe(s, runs + [r])
  {
    SafePlus(s, runs, r);
  }

  lemma CallKeepsSafe(s: Session, runs: seq<Run>, call: Call)
    requires Safe(s, runs) && 0 !in s.ports
    ensures Safe(s, After(s, runs, call))
  {
    hide Safe, Apart, Inside, ByKey, CardsFor, PortFor;
    match call {
      case Launch(q) =>
        var r := LaunchOutcome(s, runs, q).1;
        if r.Some? {
          NewLaunchApart(s, runs, q);
          SafePlus(s, runs, r.value);
        }
      case Release(id) =>
        if id < |runs| { SafeUpdate(s, runs, id, runs[id].(releaseRequested := true)); }
      case Bench(exploring, launch, key) =>
        var r := BenchOutcome(runs, exploring, launch, key).1;
        if r.Some? { BenchPlus(s, runs, r.value); }
      case BenchExternal(ok, cards, port, key) =>
        var r := ExternalOutcome(s, runs, ok, cards, port, key).1;
        if r.Some? { BenchPlus(s, runs, r.value); }
      case Serves(id) =>
        if id < |runs| { SafeUpdate(s, runs, id, runs[id].(serving := true)); }
      case Ends(id) =>
        if id < |runs| { SafeUpdate(s, runs, id, runs[id].(live := false, serving := false)); }
    }
  }

  /** Over any sequence of launches, releases, benchmarks and endings, the live
      launches hold cards apart from one another and inside the allocation, on
      ports of their own, and a key was used for one run. */
  lemma {:induction false} AllocationSafe(s: Session, runs: seq<Run>, calls: seq<Call>)
    requires Safe(s, runs) && 0 !in s.ports
    ensures Safe(s, AfterAll(s, runs, calls))
    decreases |calls|
  {
    hide Safe, After;
    if calls != [] {
      CallKeepsSafe(s, runs, calls[0]);
      AllocationSafe(s, After(s, runs, calls[0]), calls[1..]);
    }
  }

  // ---- Never more launches than ports ----

  ghost function Held(runs: seq<Run>): nat {
    if runs == [] then 0
    else Held(runs[..|runs| - 1]) + if Holds(runs[|runs| - 1]) then 1 else 0
  }

  ghost function PortsHeld(runs: seq<Run>): set<int> {
    set r | r in runs && Holds(r) :: r.port
  }

  lemma PortsHeldPlus(runs: seq<Run>, r: Run)
    ensures PortsHeld(runs + [r]) == PortsHeld(runs) + if Holds(r) then {r.port} else {}
  {
    hide Holds;
    forall p | p in PortsHeld(runs) || (Holds(r) && p == r.port)
      ensures p in PortsHeld(runs + [r])
    {
      if p in PortsHeld(runs) {
        var x :| x in runs && Holds(x) && x.port == p;
        assert x in runs + [r];
      } else {
        assert r in runs + [r];
      }
    }
  }

  lemma NewPort(runs: seq<Run>, r: Run)
    requires Holds(r) && forall x :: x in runs ==> Apart(x, r)
    ensures r.port !in PortsHeld(runs)
  {
  }

  lemma {:induction false} OnePortEach(runs: seq<Run>)
    requires forall i, j :: 0 <= i < j < |runs| ==> Apart(runs[i], runs[j])
    ensures Held(runs) == |PortsHeld(runs)|
  {
    hide Holds, Apart, PortsHeld;
    if runs == [] {
      NoPortsHeld();
    } else {
      var front, last := runs[..|runs| - 1], runs[|runs| - 1];
      assert runs == front + [last];
      OnePortEach(front);
      PortsHeldPlus(front, last);
      if Holds(last) {
        forall x | x in front
          ensures Apart(x, last)
        {
          var i :| 0 <= i < |front| && front[i] == x;
          assert runs[i] == x;
        }
        NewPort(front, last);
      }
    }
  }

  lemma NoPortsHeld()
    ensures PortsHeld([]) == {}
  {
  }

  lemma Subset<T>(a: set<T>, b: set<T>)
    requires a <= b
    ensures |a| <= |b|
  {
    assert b == a + (b - a);
  }

  /** Hence a session never has more live launches than it has ports. */
  lemma NoMoreLaunchesThanPorts(s: Session, runs: seq<Run>)
    requires Safe(s, runs)
    ensures Held(runs) <= |set p | p in s.ports|
  {
    OnePortEach(runs);
    forall p | p in PortsHeld(runs)
      ensures p in s.ports
    {
      var r :| r in runs && Holds(r) && r.port == p;
      assert Inside(s, r);
    }
    Subset(PortsHeld(runs), set p | p in s.ports);
  }

  // ---- Where the promises stop ----

  ghost predicate PortsApart(runs: seq<Run>) {
    forall i, j :: 0 <= i < j < |runs| && Holds(runs[i]) && Holds(runs[j]) ==> runs[i].port != runs[j].port
  }

  ghost predicate StayApart(s: Session, calls: seq<Call>) {
    PortsApart(AfterAll(s, [], calls))
  }

  lemma AnyCallsApart(s: Session, calls: seq<Call>)
    requires 0 !in s.ports
    ensures StayApart(s, calls)
  {
    AllocationSafe(s, [], calls);
    var runs := AfterAll(s, [], calls);
    assert forall i, j :: 0 <= i < j < |runs| ==> Apart(runs[i], runs[j]);
  }

  /** Every launch asked for occupies a card: what `config_cards` counts is a
      product of counts of at least one. */
  ghost predicate Occupying(calls: seq<Call>) {
    forall call :: call in calls && call.Launch? ==> call.req.needed >= 1
  }

  function Asking(cards: seq<int>): LaunchRequest {
    LaunchRequest(true, None, true, 1, cards, false, true, Some(0))
  }

  function OnZero(cards: seq<int>): Run {
    Run(PolicyLaunch, true, false, cards, 0, None, false, None)
  }

  /** A launch on free cards of the allocation is granted port 0 whoever has it. */
  lemma ZeroGranted(s: Session, runs: seq<Run>, cards: seq<int>)
    requires 0 in s.ports && (if s.cards == [] then cards == [] else |cards| == 1 && cards[0] in s.cards)
    requires forall c :: c in cards ==> c !in BusyCards(runs)
    ensures After(s, runs, Launch(Asking(cards))) == runs + [OnZero(cards)]
  {
  }

  lemma BothOnZero(s: Session, a: seq<int>, b: seq<int>) returns (calls: seq<Call>)
    requires 0 in s.ports
    requires if s.cards == [] then a == b == [] else |a| == |b| == 1 && a[0] in s.cards && b[0] in s.cards && a != b
    ensures Occupying(calls) && !StayApart(s, calls)
  {
    hide After, BusyCards, BusyPorts;
    var one, both := [OnZero(a)], [OnZero(a), OnZero(b)];
    calls := [Launch(Asking(a)), Launch(Asking(b))];
    NothingBusy(a);
    ZeroGranted(s, [], a);
    ZeroGranted(s, one, b);
    assert [] + [OnZero(a)] == one && one + [OnZero(b)] == both;
    assert calls[1..] == [Launch(Asking(b))] && calls[1..][1..] == [];
    assert AfterAll(s, one, calls[1..]) == AfterAll(s, both, []) == both;
    assert AfterAll(s, [], calls) == both;
    assert Holds(both[0]) && Holds(both[1]) && both[0].port == both[1].port;
  }

  lemma NothingBusy(a: seq<int>)
    ensures BusyCards([]) == {}
    ensures forall c :: c in BusyCards([OnZero(a)]) ==> c in a
  {
  }

  function Distinct(cards: seq<int>): set<int> { set c | c in cards }

  /** No two launches are live, and each holds card `c`. */
  ghost predicate Alone(runs: seq<Run>, c: int) {
    && (forall i, j :: 0 <= i < j < |runs| ==> !(Holds(runs[i]) && Holds(runs[j])))
    && (forall r :: r in runs && Holds(r) ==> c in r.cards)
  }

  lemma AlonePlus(runs: seq<Run>, r: Run, c: int)
    requires Alone(runs, c)
    requires Holds(r) ==> c in r.cards && c !in BusyCards(runs)
    ensures Alone(runs + [r], c)
  {
    if Holds(r) {
      forall x | x in runs ensures !Holds(x) {
        assert Holds(x) ==> c in x.cards;
      }
    }
  }

  lemma AloneUpdate(runs: seq<Run>, id: nat, r: Run, c: int)
    requires Alone(runs, c) && id < |runs| && r.cards == runs[id].cards && (Holds(r) ==> Holds(runs[id]))
    ensures Alone(runs[id := r], c)
  {
    var all := runs[id := r];
    forall x | x in all && Holds(x) ensures c in x.cards {
      assert x == r || x in runs;
    }
  }

  /** On one card, a launch is granted only when no other is live. */
  lemma AloneCall(s: Session, runs: seq<Run>, call: Call, c: int)
    requires Distinct(s.cards) == {c} && Alone(runs, c) && Occupying([call])
    ensures Alone(After(s, runs, call), c)
  {
    hide Alone, BusyCards, ByKey, PortFor;
    match call
    case Launch(q) =>
      assert call in [call];
      var r := LaunchOutcome(s, runs, q).1;
      if r.Some? {
        OneCardTaken(s, runs, q, c);
        AlonePlus(runs, r.value, c);
      }
    case Bench(exploring, launch, key) =>
      var r := BenchOutcome(runs, exploring, launch, key).1;
      if r.Some? { AlonePlus(runs, r.value, c); }
    case BenchExternal(ok, cards, port, key) =>
      var r := ExternalOutcome(s, runs, ok, cards, port, key).1;
      if r.Some? { AlonePlus(runs, r.value, c); }
    case Release(id) => if IsLaunch(runs, id) { AloneUpdate(runs, id, runs[id].(releaseRequested := true), c); }
    case Serves(id) => if id < |runs| { AloneUpdate(runs, id, runs[id].(serving := true), c); }
    case Ends(id) => if id < |runs| { AloneUpdate(runs, id, runs[id].(live := false, serving := false), c); }
  }

  lemma CardsWereGranted(s: Session, runs: seq<Run>, q: LaunchRequest)
    requires LaunchOutcome(s, runs, q).1.Some?
    ensures CardsGranted(s, runs, LaunchOutcome(s, runs, q).1.value.cards)
    ensures s.cards != [] ==> |LaunchOutcome(s, runs, q).1.value.cards| == q.needed
  {
    hide ByKey, PortFor, BusyCards;
  }

  lemma OneCardTaken(s: Session, runs: seq<Run>, q: LaunchRequest, c: int)
    requires Distinct(s.cards) == {c} && q.needed >= 1 && LaunchOutcome(s, runs, q).1.Some?
    ensures var r := LaunchOutcome(s, runs, q).1.value; c in r.cards && c !in BusyCards(runs)
  {
    hide ByKey, PortFor, BusyCards, FreeCards;
    var r := LaunchOutcome(s, runs, q).1.value;
    assert c in Distinct(s.cards);
    CardsWereGranted(s, runs, q);
    var first := r.cards[0];
    assert first in r.cards;
    assert first in Distinct(s.cards);
  }

  lemma {:induction false} AloneAll(s: Session, runs: seq<Run>, calls: seq<Call>, c: int)
    requires Distinct(s.cards) == {c} && Alone(runs, c) && Occupying(calls)
    ensures Alone(AfterAll(s, runs, calls), c)
    decreases |calls|
  {
    hide Alone, After;
    if calls != [] {
      AloneCall(s, runs, calls[0], c);
      AloneAll(s, After(s, runs, calls[0]), calls[1..], c);
    }
  }

  /** Port 0 is never seen as busy; a session has it when its campaign's service
      port is negative, for its ports count up from there
      (backend/app/control/orchestrator/policy_session.py). A session's live launches keep to ports of
      their own, whatever is called, exactly when 0 is not one of its ports, or
      it has one card alone, so that no two are live. */
  lemma PortsApartExactlyWithoutZero(s: Session)
    ensures (forall calls :: Occupying(calls) ==> StayApart(s, calls)) <==>
      0 !in s.ports || |Distinct(s.cards)| == 1
  {
    hide StayApart, Occupying;
    if 0 !in s.ports {
      forall calls ensures StayApart(s, calls) {
        AnyCallsApart(s, calls);
      }
    } else if |Distinct(s.cards)| == 1 {
      forall calls | Occupying(calls) ensures StayApart(s, calls) {
        OneCardApart(s, calls);
      }
    } else {
      var a, b := TwoCards(s);
      var calls := BothOnZero(s, a, b);
    }
  }

  lemma AnyOf(cs: set<int>) returns (c: int)
    requires cs != {}
    ensures c in cs
  {
    assert (forall x :: x !in cs) ==> cs == {};
    c :| c in cs;
  }

  lemma OneCardApart(s: Session, calls: seq<Call>)
    requires |Distinct(s.cards)| == 1 && Occupying(calls)
    ensures StayApart(s, calls)
  {
    var all := Distinct(s.cards);
    var c := AnyOf(all);
    assert all == {c} + (all - {c}) && |all - {c}| == 0;
    AloneAll(s, [], calls, c);
  }

  /** What two launches can ask for without getting in each other's way. */
  lemma TwoCards(s: Session) returns (a: seq<int>, b: seq<int>)
    requires |Distinct(s.cards)| != 1
    ensures if s.cards == [] then a == b == [] else |a| == |b| == 1 && a[0] in s.cards && b[0] in s.cards && a != b
  {
    if s.cards == [] {
      a, b := [], [];
    } else {
      var x := s.cards[0];
      assert x in Distinct(s.cards);
      var others := Distinct(s.cards) - {x};
      assert Distinct(s.cards) == {x} + others;
      var y := AnyOf(others);
      a, b := [x], [y];
    }
  }

  ghost predicate NoRepeat(cs: seq<int>) {
    forall i, j :: 0 <= i < j < |cs| ==> cs[i] != cs[j]
  }

  lemma {:induction false} DistinctCount(cs: seq<int>)
    ensures |set c | c in cs| <= |cs|
    ensures |set c | c in cs| == |cs| <==> NoRepeat(cs)
  {
    if cs == [] {
      assert (set c | c in cs) == {};
    } else {
      var front, last := cs[..|cs| - 1], cs[|cs| - 1];
      DistinctCount(front);
      var before := set c | c in front;
      assert (set c | c in cs) == before + {last};
      if last in before {
        assert before + {last} == before;
        var i :| 0 <= i < |front| && front[i] == last;
        assert cs[i] == cs[|cs| - 1];
      } else {
        assert NoRepeat(front) ==> NoRepeat(cs);
        assert NoRepeat(cs) ==> NoRepeat(front);
      }
    }
  }

  lemma {:induction false} FreeNoRepeat(allowed: seq<int>, busy: set<int>)
    requires NoRepeat(allowed)
    ensures NoRepeat(Free(allowed, busy))
  {
    if allowed != [] {
      FreeNoRepeat(allowed[1..], busy);
      var rest := Free(allowed[1..], busy);
      forall j | 0 <= j < |rest|
        ensures rest[j] != allowed[0]
      {
        assert rest[j] in allowed[1..];
        var k :| 0 <= k < |allowed[1..]| && allowed[1..][k] == rest[j];
        assert allowed[k + 1] == rest[j];
      }
    }
  }

  /** On a session with cards, a launch that is granted holds as many cards as
      its config needs exactly when it named none of them twice: the counts are
      compared, the repeats are not. */
  lemma CardsHeldExactlyWithoutRepeat(s: Session, runs: seq<Run>, q: LaunchRequest)
    requires s.cards != [] && NoRepeat(s.cards) && LaunchOutcome(s, runs, q).1.Some?
    ensures var held := LaunchOutcome(s, runs, q).1.value.cards;
            |set c | c in held| == q.needed <==> q.needed != |q.cards| || NoRepeat(q.cards)
  {
    hide ByKey, FirstFree;
    var held := LaunchOutcome(s, runs, q).1.value.cards;
    DistinctCount(held);
    FreeNoRepeat(s.cards, BusyCards(runs));
  }

  // ---- Asking again ----

  /** The same key again is the same run, and nothing changes. */
  lemma SameKeySameRun(s: Session, runs: seq<Run>, q: LaunchRequest, again: LaunchRequest)
    requires Safe(s, runs) && q.key.Some? && q.key.value != ""
    requires LaunchOutcome(s, runs, q).0.Created? && again.exploring && again.key == q.key
    ensures var later := After(s, runs, Launch(q));
            LaunchOutcome(s, later, again) == (Existing(LaunchOutcome(s, runs, q).0.id), None)
  {
    hide CardsFor, PortFor, Safe;
    var later := After(s, runs, Launch(q));
    assert later[|later| - 1].key == q.key;
  }

  /** A launch that names no port is turned away for want of one only when
      every port of the allocation is busy. */
  lemma PortRefusedOnlyWhenAllBusy(s: Session, runs: seq<Run>, q: LaunchRequest)
    requires q.exploring && ByKey(runs, q.key).None? && q.valid && q.fits && q.port.None?
    requires CardsFor(s, runs, q).Some? && CardsGranted(s, runs, CardsFor(s, runs, q).value)
    ensures LaunchOutcome(s, runs, q).0 == Refused(Busy) <==> forall p :: p in s.ports ==> p in BusyPorts(runs)
    ensures LaunchOutcome(s, runs, q).0 == Refused(Busy) || LaunchOutcome(s, runs, q).0 == Created(|runs|)
  {
    hide ByKey, CardsFor, BusyCards, BusyPorts;
  }

  // ---- The handlers ----

  /** The first port not in use, looked for in the order allocated. */
  method PickPort(ports: seq<int>, busy: set<int>) returns (r: Option<int>)
    ensures r == FirstFree(ports, busy)
  {
    var i := 0;
    assert ports[0..] == ports;
    while i < |ports|
      invariant 0 <= i <= |ports| && FirstFree(ports[i..], busy) == FirstFree(ports, busy)
    {
      assert ports[i..][1..] == ports[i + 1..];
      if ports[i] !in busy {
        return Some(ports[i]);
      }
      i := i + 1;
    }
    assert ports[i..] == [];
    r := None;
  }

  class Ledger {
    const s: Session
    var runs: seq<Run>

    constructor (s: Session)
      ensures this.s == s && runs == []
    {
      this.s, runs := s, [];
    }

    method RequestLaunch(q: LaunchRequest) returns (r: Outcome)
      modifies this
      ensures r == LaunchOutcome(s, old(runs), q).0 && runs == After(s, old(runs), Launch(q))
    {
      hide ByKey, FreeCards, BusyCards, BusyPorts;
      if !q.exploring {
        return Refused(NotExploring);
      }
      var existing := ByKey(runs, q.key);
      if existing.Some? {
        return Existing(existing.value);
      }
      if !q.valid {
        return Refused(Invalid);
      }
      var cards := q.cards;
      if s.cards != [] && q.needed != |q.cards| {
        if !q.recipe {
          return Refused(Invalid);
        }
        var free := FreeCards(s, runs, q.needed);
        if free.None? {
          return Refused(if q.needed > |s.cards| then Invalid else Busy);
        }
        cards := free.value;
      }
      if !q.fits || exists c :: c in cards && c !in s.cards {
        return Refused(Invalid);
      }
      if exists c :: c in cards && c in BusyCards(runs) {
        return Refused(Busy);
      }
      var port := q.port;
      if port.None? {
        port := PickPort(s.ports, BusyPorts(runs));
        if port.None? {
          return Refused(Busy);
        }
      } else if port.value !in s.ports {
        return Refused(Invalid);
      } else if port.value in BusyPorts(runs) {
        return Refused(Busy);
      }
      r := Created(|runs|);
      runs := runs + [Run(PolicyLaunch, true, false, cards, port.value, q.key, false, None)];
    }

    method ReleaseLaunch(id: nat) returns (r: Outcome)
      modifies this
      ensures r == (if IsLaunch(old(runs), id) then Done else Refused(NoSuchRun))
      ensures runs == After(s, old(runs), Release(id))
    {
      if !IsLaunch(runs, id) {
        return Refused(NoSuchRun);
      }
      if runs[id].live && !runs[id].releaseRequested {
        runs := runs[id := runs[id].(releaseRequested := true)];
      }
      r := Done;
    }

    method BenchLaunch(exploring: bool, launch: nat, key: Option<string>) returns (r: Outcome)
      modifies this
      ensures r == BenchOutcome(old(runs), exploring, launch, key).0
      ensures runs == After(s, old(runs), Bench(exploring, launch, key))
    {
      if !exploring {
        return Refused(NotExploring);
      }
      if !IsLaunch(runs, launch) {
        return Refused(NoSuchRun);
      }
      if !runs[launch].serving {
        return Refused(NotServing);
      }
      var existing := ByKey(runs, key);
      if existing.Some? {
        return Existing(existing.value);
      }
      r := Created(|runs|);
      runs := runs + [Run(External, true, false, [], 0, key, false, Some(launch))];
    }
  }
}
