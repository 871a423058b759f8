/** The mock engine's admission monitor: a batch cap and a pool of KV tokens
    shared by any number of request threads
    (mock-engine/landscape.py, driven by mock-engine/mock_engine.py). */
module Admission {
  import opened Text

  // ---- The engine and its requests ----

  /** `stepsReadable`: `num_continuous_decode_steps` can be read as an integer. */
  datatype Engine = Engine(kvCapacity: nat, maxRunning: int, chunk: int, stepsReadable: bool)

  /** A prefill raises when its rate is zero (chunk 0), complex (a negative
      chunk) or its step count cannot be read as an integer. */
  predicate PrefillRaises(e: Engine) {
    e.chunk <= 0 || !e.stepsReadable
  }

  /** Where a request's thread is. */
  datatype Phase =
    | Arriving    // not yet in `admit`
    | Waiting     // in the wait loop
    | Admitted    // holds its room, waits for the prefill lock
    | Prefilling  // holds the prefill lock
    | Decoding
    | Failing     // an exception is on its way to the `finally`
    | Released

  datatype Request = Request(prompt: nat, output: nat, produced: nat, phase: Phase)

  function Footprint(r: Request): nat { r.prompt + r.output }

  function Need(e: Engine, r: Request): nat {
    if Footprint(r) < e.kvCapacity then Footprint(r) else e.kvCapacity
  }

  predicate Holding(p: Phase) {
    p.Admitted? || p.Prefilling? || p.Decoding? || p.Failing?
  }

  predicate PrefillBegun(p: Phase) {
    p.Prefilling? || p.Decoding? || p.Failing? || p.Released?
  }

  /** The counters of the monitor, and the threads they count. */
  datatype State = State(
    kvUsed: int, running: int, waiting: int, prefilling: int, generated: int,
    lock: Option<nat>, reqs: seq<Request>)

  function Fresh(requests: seq<(nat, nat)>): State {
    State(0, 0, 0, 0, 0, None,
          seq(|requests|, i requires 0 <= i < |requests| => Request(requests[i].0, requests[i].1, 0, Arriving)))
  }

  // ---- The steps, one critical section each ----

  datatype Action =
    | Arrive(i: nat)        // enter `admit`, up to the first wait or through it
    | Wake(i: nat)          // look at the guard again
    | BeginPrefill(i: nat)
    | EndPrefill(i: nat)
    | Token(i: nat)
    | Release(i: nat)       // the `finally`: after the reply, or a failure

  predicate Open(e: Engine, s: State, i: nat)
    requires i < |s.reqs|
  {
    !(s.running >= e.maxRunning || s.kvUsed + Need(e, s.reqs[i]) > e.kvCapacity)
  }

  predicate Enabled(s: State, a: Action) {
    a.i < |s.reqs| &&
    var r := s.reqs[a.i];
    match a
    case Arrive(_) => r.phase.Arriving?
    case Wake(_) => r.phase.Waiting?
    case BeginPrefill(_) => r.phase.Admitted? && s.lock.None?
    case EndPrefill(_) => r.phase.Prefilling? && s.lock == Some(a.i)
    case Token(_) => r.phase.Decoding? && r.produced + 1 < r.output
    case Release(_) => r.phase.Decoding? || r.phase.Failing?
  }

  function Moved(s: State, i: nat, p: Phase): seq<Request>
    requires i < |s.reqs|
  {
    s.reqs[i := s.reqs[i].(phase := p)]
  }

  function Next(e: Engine, s: State, a: Action): State
    requires Enabled(s, a)
  {
    var i, r := a.i, s.reqs[a.i];
    match a
    case Arrive(_) =>
      if Open(e, s, i) then
        s.(running := s.running + 1, kvUsed := s.kvUsed + Need(e, r), reqs := Moved(s, i, Admitted))
      else
        s.(waiting := s.waiting + 1, reqs := Moved(s, i, Waiting))
    case Wake(_) =>
      if Open(e, s, i) then
        s.(waiting := s.waiting - 1, running := s.running + 1, kvUsed := s.kvUsed + Need(e, r),
           reqs := Moved(s, i, Admitted))
      else s
    case BeginPrefill(_) =>
      s.(prefilling := s.prefilling + 1, lock := Some(i), reqs := Moved(s, i, Prefilling))
    case EndPrefill(_) =>
      // the decrement stands after the sleep, outside any `finally`
      if PrefillRaises(e) then s.(lock := None, reqs := Moved(s, i, Failing))
      else s.(prefilling := s.prefilling - 1, lock := None, reqs := Moved(s, i, Decoding))
    case Token(_) =>
      s.(generated := s.generated + 1, reqs := s.reqs[i := r.(produced := r.produced + 1)])
    case Release(_) =>
      s.(running := s.running - 1, kvUsed := s.kvUsed - Need(e, r), reqs := Moved(s, i, Released))
  }

  /** A schedule: one critical section after another, in any interleaving. */
  ghost predicate Possible(e: Engine, s: State, steps: seq<Action>)
    decreases |steps|
  {
    steps == [] || (Enabled(s, steps[0]) && Possible(e, Next(e, s, steps[0]), steps[1..]))
  }

  ghost function After(e: Engine, s: State, steps: seq<Action>): State
    requires Possible(e, s, steps)
    decreases |steps|
  {
    if steps == [] then s else After(e, Next(e, s, steps[0]), steps[1..])
  }

  // ---- Sums over the requests ----

  /** What is counted of a request. */
  datatype Tally = Tokens | Holders | Waiters | Decoded | Begun | Inside | StepsLeft

  ghost function Worth(e: Engine, c: Tally, r: Request): nat {
    match c
    case Tokens => if Holding(r.phase) then Need(e, r) else 0
    case Holders => if Holding(r.phase) then 1 else 0
    case Waiters => if r.phase.Waiting? then 1 else 0
    case Decoded => r.produced
    case Begun => if PrefillBegun(r.phase) then 1 else 0
    case Inside => if r.phase.Prefilling? then 1 else 0
    case StepsLeft => Left(r)
  }

  /** An upper bound on the steps that still move this request. */
  ghost function Left(r: Request): nat {
    match r.phase
    case Arriving => r.output + 5
    case Waiting => r.output + 4
    case Admitted => r.output + 3
    case Prefilling => r.output + 2
    case Decoding => (if r.produced < r.output then r.output - r.produced else 0) + 1
    case Failing => 1
    case Released => 0
  }

  ghost function Sum(e: Engine, c: Tally, rs: seq<Request>): nat {
    if rs == [] then 0 else Worth(e, c, rs[0]) + Sum(e, c, rs[1..])
  }

  lemma {:induction false} SumUpdate(e: Engine, c: Tally, rs: seq<Request>, i: nat, r: Request)
    requires i < |rs|
    ensures Sum(e, c, rs[i := r]) == Sum(e, c, rs) - Worth(e, c, rs[i]) + Worth(e, c, r)
  {
    if i == 0 {
      assert rs[i := r][1..] == rs[1..];
    } else {
      assert rs[i := r][1..] == rs[1..][i - 1 := r];
      SumUpdate(e, c, rs[1..], i - 1, r);
    }
  }

  lemma {:induction false} PartOfSum(e: Engine, c: Tally, rs: seq<Request>, i: nat)
    requires i < |rs|
    ensures Worth(e, c, rs[i]) <= Sum(e, c, rs)
  {
    if i > 0 {
      PartOfSum(e, c, rs[1..], i - 1);
    }
  }

  lemma {:induction false} SumZero(e: Engine, c: Tally, rs: seq<Request>)
    ensures Sum(e, c, rs) == 0 <==> forall i :: 0 <= i < |rs| ==> Worth(e, c, rs[i]) == 0
  {
    if rs != [] {
      SumZero(e, c, rs[1..]);
      assert forall i :: 0 < i < |rs| ==> rs[i] == rs[1..][i - 1];
      if Sum(e, c, rs[1..]) != 0 {
        var i :| 0 <= i < |rs[1..]| && Worth(e, c, rs[1..][i]) != 0;
        assert rs[i + 1] == rs[1..][i];
      }
    }
  }

  // ---- What every reachable state keeps ----

  /** Each counter is the sum it stands for: the tokens and the number of the
      admitted requests not yet released, the threads in the wait loop, the
      tokens put out; and the prefills under way, to which every prefill that
      has raised is added. */
  ghost predicate Conserved(e: Engine, s: State) {
    && s.kvUsed == Sum(e, Tokens, s.reqs)
    && s.running == Sum(e, Holders, s.reqs)
    && s.waiting == Sum(e, Waiters, s.reqs)
    && s.generated == Sum(e, Decoded, s.reqs)
    && s.prefilling == Sum(e, if PrefillRaises(e) then Begun else Inside, s.reqs)
  }

  ghost predicate WithinLimits(e: Engine, s: State) {
    && 0 <= s.kvUsed <= e.kvCapacity
    && 0 <= s.running && (s.running == 0 || s.running <= e.maxRunning)
  }

  /** The prefill lock is held by the one thread that is in there. */
  ghost predicate LockHeld(e: Engine, s: State) {
    && Sum(e, Inside, s.reqs) == (if s.lock.Some? then 1 else 0)
    && (s.lock.Some? ==> s.lock.value < |s.reqs| && s.reqs[s.lock.value].phase.Prefilling?)
  }

  /** A request decodes only when its prefill did not raise, and never puts
      out more than it was asked for. */
  ghost predicate Sound(e: Engine, r: Request) {
    && (r.phase.Decoding? ==> !PrefillRaises(e))
    && (r.phase.Failing? ==> PrefillRaises(e))
    && (r.produced > 0 ==> r.produced < r.output)
  }

  ghost predicate Inv(e: Engine, s: State) {
    && Conserved(e, s) && WithinLimits(e, s) && LockHeld(e, s)
    && forall i :: 0 <= i < |s.reqs| ==> Sound(e, s.reqs[i])
  }

  lemma InvFresh(e: Engine, requests: seq<(nat, nat)>)
    ensures Inv(e, Fresh(requests))
  {
    var rs := Fresh(requests).reqs;
    SumZero(e, Tokens, rs);
    SumZero(e, Holders, rs);
    SumZero(e, Waiters, rs);
    SumZero(e, Decoded, rs);
    SumZero(e, Begun, rs);
    SumZero(e, Inside, rs);
  }

  lemma Changes(e: Engine, s: State, i: nat, r: Request)
    requires i < |s.reqs|
    ensures forall c: Tally :: Sum(e, c, s.reqs[i := r]) == Sum(e, c, s.reqs) - Worth(e, c, s.reqs[i]) + Worth(e, c, r)
  {
    forall c: Tally
      ensures Sum(e, c, s.reqs[i := r]) == Sum(e, c, s.reqs) - Worth(e, c, s.reqs[i]) + Worth(e, c, r)
    {
      SumUpdate(e, c, s.reqs, i, r);
    }
  }

  lemma InvStep(e: Engine, s: State, a: Action)
    requires Inv(e, s) && Enabled(s, a)
    ensures Inv(e, Next(e, s, a))
  {
    hide Sum;
    var t := Next(e, s, a);
    if t != s {
      assert t.reqs == s.reqs[a.i := t.reqs[a.i]];
      assert forall i :: 0 <= i < |s.reqs| && i != a.i ==> t.reqs[i] == s.reqs[i];
      Changes(e, s, a.i, t.reqs[a.i]);
      PartOfSum(e, Inside, s.reqs, a.i);
      if s.lock.Some? && a.i != s.lock.value { PartOfTwo(e, s, a.i); }
    }
  }

  /** With one thread in the prefill, any other is elsewhere. */
  lemma PartOfTwo(e: Engine, s: State, i: nat)
    requires LockHeld(e, s) && s.lock.Some? && i < |s.reqs| && i != s.lock.value
    ensures !s.reqs[i].phase.Prefilling?
  {
    var out := s.reqs[i].(phase := Released);
    SumUpdate(e, Inside, s.reqs, i, out);
    PartOfSum(e, Inside, s.reqs[i := out], s.lock.value);
  }

  /** In every interleaving of any number of requests the counters stay what
      they stand for, within the engine's limits. */
  lemma {:induction false} EverySchedule(e: Engine, s: State, steps: seq<Action>)
    requires Inv(e, s) && Possible(e, s, steps)
    ensures Inv(e, After(e, s, steps))
    decreases |steps|
  {
    if steps != [] {
      InvStep(e, s, steps[0]);
      EverySchedule(e, Next(e, s, steps[0]), steps[1..]);
    }
  }

  // ---- Who is let in ----

  /** What a request takes of the pool: its tokens, or the whole pool. */
  ghost function Takes(e: Engine, r: Request): nat {
    if r.prompt + r.output <= e.kvCapacity then r.prompt + r.output else e.kvCapacity
  }

  /** There is a slot and there are tokens for one more, counted over those
      who hold some. */
  ghost predicate HasRoom(e: Engine, s: State, i: nat)
    requires i < |s.reqs|
  {
    && Sum(e, Holders, s.reqs) + 1 <= e.maxRunning
    && Sum(e, Tokens, s.reqs) + Takes(e, s.reqs[i]) <= e.kvCapacity
  }

  /** A request that enters, or looks again, is let in exactly when there is
      room for it beside all who hold some; else it waits, and nobody else is
      touched. */
  lemma LetInExactlyWithRoom(e: Engine, s: State, a: Action)
    requires Inv(e, s) && Enabled(s, a) && (a.Arrive? || a.Wake?)
    ensures var t := Next(e, s, a);
            && |t.reqs| == |s.reqs|
            && t.reqs[a.i] == s.reqs[a.i].(phase := if HasRoom(e, s, a.i) then Admitted else Waiting)
            && forall i :: 0 <= i < |s.reqs| && i != a.i ==> t.reqs[i] == s.reqs[i]
  {
    hide Sum, LockHeld, WithinLimits;
  }

  /** What it takes is there for the others again once it is given back. */
  lemma GivenBack(e: Engine, s: State, i: nat)
    requires Enabled(s, Release(i))
    ensures var t := Next(e, s, Release(i));
            && Sum(e, Tokens, t.reqs) == Sum(e, Tokens, s.reqs) - Takes(e, s.reqs[i])
            && Sum(e, Holders, t.reqs) == Sum(e, Holders, s.reqs) - 1
  {
    SumUpdate(e, Tokens, s.reqs, i, s.reqs[i].(phase := Released));
    SumUpdate(e, Holders, s.reqs, i, s.reqs[i].(phase := Released));
    hide Sum;
  }

  // ---- Progress ----

  ghost predicate Unfinished(s: State) {
    exists i :: 0 <= i < |s.reqs| && !s.reqs[i].phase.Released?
  }

  /** A step that changes something: not a look at a guard still shut. */
  ghost predicate Moves(e: Engine, s: State, a: Action) {
    Enabled(s, a) && (a.Wake? ==> Open(e, s, a.i))
  }

  lemma MovesChanges(e: Engine, s: State, a: Action)
    requires Enabled(s, a)
    ensures Moves(e, s, a) <==> Next(e, s, a) != s
  {
    var r := s.reqs[a.i];
    assert Moves(e, s, a) ==> Next(e, s, a).reqs[a.i] != r;
  }

  /** Every moving step uses up at least one of the steps left. */
  lemma MovesCount(e: Engine, s: State, a: Action)
    requires Inv(e, s) && Moves(e, s, a)
    ensures Sum(e, StepsLeft, Next(e, s, a).reqs) < Sum(e, StepsLeft, s.reqs)
  {
    var t := Next(e, s, a);
    assert t.reqs == s.reqs[a.i := t.reqs[a.i]];
    SumUpdate(e, StepsLeft, s.reqs, a.i, t.reqs[a.i]);
  }

  lemma NobodyHolds(e: Engine, s: State)
    requires Inv(e, s) && forall i :: 0 <= i < |s.reqs| ==> !Holding(s.reqs[i].phase)
    ensures s.running == 0 && s.kvUsed == 0
  {
    SumZero(e, Holders, s.reqs);
    SumZero(e, Tokens, s.reqs);
  }

  /** No deadlock: while a request is unfinished some step moves. A waiter's
      guard is open as soon as nobody holds any room, because no request is
      made to need more than the engine has. */
  lemma Progress(e: Engine, s: State) returns (a: Action)
    requires Inv(e, s) && Unfinished(s) && e.maxRunning >= 1
    ensures Moves(e, s, a)
  {
    if j :| 0 <= j < |s.reqs| && Holding(s.reqs[j].phase) {
      if s.reqs[j].phase.Admitted? {
        a := if s.lock.None? then BeginPrefill(j) else EndPrefill(s.lock.value);
      } else if s.reqs[j].phase.Prefilling? {
        if s.lock.None? { PartOfSum(e, Inside, s.reqs, j); }
        a := EndPrefill(s.lock.value);
      } else {
        a := Release(j);
      }
    } else {
      NobodyHolds(e, s);
      var j :| 0 <= j < |s.reqs| && !s.reqs[j].phase.Released?;
      a := if s.reqs[j].phase.Arriving? then Arrive(j) else Wake(j);
    }
  }

  /** Where no step moves, everything has been given back. */
  lemma Drained(e: Engine, s: State)
    requires Inv(e, s) && e.maxRunning >= 1
    requires forall a :: !Moves(e, s, a)
    ensures !Unfinished(s)
    ensures s.kvUsed == 0 && s.running == 0 && s.waiting == 0
    ensures !PrefillRaises(e) ==> s.prefilling == 0
  {
    if Unfinished(s) {
      var a := Progress(e, s);
    }
    NobodyHolds(e, s);
    SumZero(e, Waiters, s.reqs);
    SumZero(e, Inside, s.reqs);
  }

  /** The steps of a schedule that move, in number. */
  ghost function Moving(e: Engine, s: State, steps: seq<Action>): nat
    requires Possible(e, s, steps)
    decreases |steps|
  {
    if steps == [] then 0
    else (if Moves(e, s, steps[0]) then 1 else 0) + Moving(e, Next(e, s, steps[0]), steps[1..])
  }

  /** No schedule of these requests, failing ones included, moves more often
      than their footprint allows; one that can go no further has drained. */
  lemma {:induction false} EveryScheduleEnds(e: Engine, s: State, steps: seq<Action>)
    requires Inv(e, s) && Possible(e, s, steps)
    ensures Moving(e, s, steps) + Sum(e, StepsLeft, After(e, s, steps).reqs) <= Sum(e, StepsLeft, s.reqs)
    ensures var t := After(e, s, steps);
            e.maxRunning >= 1 && (forall a :: !Moves(e, t, a)) ==>
              !Unfinished(t) && t.kvUsed == 0 && t.running == 0 && t.waiting == 0
    decreases |steps|
  {
    if steps == [] {
      if e.maxRunning >= 1 && (forall a :: !Moves(e, s, a)) { Drained(e, s); }
    } else {
      var next := Next(e, s, steps[0]);
      InvStep(e, s, steps[0]);
      if Moves(e, s, steps[0]) {
        MovesCount(e, s, steps[0]);
      } else {
        MovesChanges(e, s, steps[0]);
      }
      EveryScheduleEnds(e, next, steps[1..]);
    }
  }

  /** From any reachable state the requests can be served to the last. */
  lemma {:induction false} CanFinish(e: Engine, s: State) returns (steps: seq<Action>)
    requires Inv(e, s) && e.maxRunning >= 1
    ensures Possible(e, s, steps) && !Unfinished(After(e, s, steps)) && Inv(e, After(e, s, steps))
    ensures |After(e, s, steps).reqs| == |s.reqs|
    decreases Sum(e, StepsLeft, s.reqs)
  {
    if Unfinished(s) {
      var a := Progress(e, s);
      MovesCount(e, s, a);
      InvStep(e, s, a);
      var rest := CanFinish(e, Next(e, s, a));
      steps := [a] + rest;
      assert steps[1..] == rest;
    } else {
      steps := [];
    }
  }

  // ---- Where the promises stop ----

  /** Nobody has been let in. */
  ghost predicate Outside(s: State) {
    forall i :: 0 <= i < |s.reqs| ==> s.reqs[i].phase.Arriving? || s.reqs[i].phase.Waiting?
  }

  lemma {:induction false} NobodyEnters(e: Engine, s: State, steps: seq<Action>)
    requires Inv(e, s) && Possible(e, s, steps) && e.maxRunning <= 0 && Outside(s)
    ensures Outside(After(e, s, steps)) && |After(e, s, steps).reqs| == |s.reqs|
    decreases |steps|
  {
    if steps != [] {
      InvStep(e, s, steps[0]);
      NobodyEnters(e, Next(e, s, steps[0]), steps[1..]);
    }
  }

  ghost predicate Serves(e: Engine, requests: seq<(nat, nat)>, steps: seq<Action>) {
    Possible(e, Fresh(requests), steps) && !Unfinished(After(e, Fresh(requests), steps))
  }

  /** A batch can be served exactly when the cap leaves a slot: with a cap of
      zero or less every request waits for ever. */
  lemma ServedExactlyWithASlot(e: Engine, requests: seq<(nat, nat)>)
    requires requests != []
    ensures (exists steps :: Serves(e, requests, steps)) <==> e.maxRunning >= 1
  {
    InvFresh(e, requests);
    if e.maxRunning >= 1 {
      var steps := CanFinish(e, Fresh(requests));
      assert Serves(e, requests, steps);
    } else {
      forall steps | Possible(e, Fresh(requests), steps)
        ensures Unfinished(After(e, Fresh(requests), steps))
      {
        NobodyEnters(e, Fresh(requests), steps);
        assert !After(e, Fresh(requests), steps).reqs[0].phase.Released?;
      }
    }
  }

  ghost predicate GaugeStays(e: Engine, requests: seq<(nat, nat)>, steps: seq<Action>) {
    Possible(e, Fresh(requests), steps) ==> 0 <= After(e, Fresh(requests), steps).prefilling <= 1
  }

  lemma {:induction false} AllBegun(e: Engine, rs: seq<Request>)
    requires forall i :: 0 <= i < |rs| ==> rs[i].phase.Released?
    ensures Sum(e, Begun, rs) == |rs|
  {
    if rs != [] {
      AllBegun(e, rs[1..]);
    }
  }

  /** The count of prefills under way is 0 or 1 in every schedule of every
      batch exactly when a prefill cannot raise: its chunk is positive and its
      step count an integer. */
  lemma GaugeExactlyWhenPrefillHolds(e: Engine)
    requires e.maxRunning >= 1
    ensures (forall requests, steps :: GaugeStays(e, requests, steps)) <==> e.chunk >= 1 && e.stepsReadable
  {
    if !PrefillRaises(e) {
      forall requests, steps
        ensures GaugeStays(e, requests, steps)
      {
        InvFresh(e, requests);
        if Possible(e, Fresh(requests), steps) { EverySchedule(e, Fresh(requests), steps); }
      }
    } else {
      var two: seq<(nat, nat)> := [(1, 1), (1, 1)];
      InvFresh(e, two);
      var steps := CanFinish(e, Fresh(two));
      var t := After(e, Fresh(two), steps);
      AllBegun(e, t.reqs);
      assert |t.reqs| == |Fresh(two).reqs| == 2;
      assert t.prefilling == 2;
      assert !GaugeStays(e, two, steps);
    }
  }

  // ---- The monitor itself ----

  class Landscape {
    const e: Engine
    var kvUsed: int
    var running: int
    var waiting: int
    var prefilling: int
    var generated: int

    constructor (e: Engine)
      ensures this.e == e && forall requests :: Shows(Fresh(requests))
    {
      this.e := e;
      kvUsed, running, waiting, prefilling, generated := 0, 0, 0, 0, 0;
    }

    /** The fields are the counters of `s`. */
    ghost predicate Shows(s: State)
      reads this
    {
      && kvUsed == s.kvUsed && running == s.running && waiting == s.waiting
      && prefilling == s.prefilling && generated == s.generated
    }

    function NeedFor(tokens: nat): (need: nat)
      ensures need <= tokens && need <= e.kvCapacity
      ensures need == tokens || need == e.kvCapacity
    {
      if tokens < e.kvCapacity then tokens else e.kvCapacity
    }

    predicate Blocked(need: nat)
      reads this
    {
      running >= e.maxRunning || kvUsed + need > e.kvCapacity
    }

    /** `admit` from its start to the first wait, or to its end. */
    method EnterAdmit(tokens: nat, ghost s: State, ghost i: nat) returns (admitted: bool)
      requires Shows(s) && Enabled(s, Arrive(i)) && tokens == Footprint(s.reqs[i])
      modifies this
      ensures Shows(Next(e, s, Arrive(i)))
      ensures admitted <==> Next(e, s, Arrive(i)).reqs[i].phase.Admitted?
    {
      var need := NeedFor(tokens);
      waiting := waiting + 1;
      if Blocked(need) {
        return false;
      }
      waiting := waiting - 1;
      running := running + 1;
      kvUsed := kvUsed + need;
      admitted := true;
    }

    /** `admit` from one wake-up to the next wait, or to its end. */
    method WakeUp(tokens: nat, ghost s: State, ghost i: nat) returns (admitted: bool)
      requires Shows(s) && Enabled(s, Wake(i)) && tokens == Footprint(s.reqs[i])
      modifies this
      ensures Shows(Next(e, s, Wake(i)))
      ensures admitted <==> Next(e, s, Wake(i)).reqs[i].phase.Admitted?
    {
      var need := NeedFor(tokens);
      if Blocked(need) {
        return false;
      }
      waiting := waiting - 1;
      running := running + 1;
      kvUsed := kvUsed + need;
      admitted := true;
    }

    method Release(tokens: nat, ghost s: State, ghost i: nat)
      requires Shows(s) && Enabled(s, Action.Release(i)) && tokens == Footprint(s.reqs[i])
      modifies this
      ensures Shows(Next(e, s, Action.Release(i)))
    {
      running := running - 1;
      kvUsed := kvUsed - NeedFor(tokens);
    }

    method PrefillEnter(ghost s: State, ghost i: nat)
      requires Shows(s) && Enabled(s, BeginPrefill(i))
      modifies this
      ensures Shows(Next(e, s, BeginPrefill(i)))
    {
      prefilling := prefilling + 1;
    }

    /** The sleep, and what follows it unless it raises. */
    method PrefillLeave(ghost s: State, ghost i: nat) returns (raised: bool)
      requires Shows(s) && Enabled(s, EndPrefill(i))
      modifies this
      ensures Shows(Next(e, s, EndPrefill(i)))
      ensures raised <==> Next(e, s, EndPrefill(i)).reqs[i].phase.Failing?
    {
      raised := PrefillRaises(e);
      if !raised {
        prefilling := prefilling - 1;
      }
    }

    method TokenOut(ghost s: State, ghost i: nat)
      requires Shows(s) && Enabled(s, Token(i))
      modifies this
      ensures Shows(Next(e, s, Token(i)))
    {
      generated := generated + 1;
    }
  }
}
