/** The status of a campaign under everything that changes it: people, plugins,
    and its clock (backend/app/api/campaigns.py, backend/app/control/managed.py,
    backend/app/control/orchestrator/supervisor.py). Times are seconds. */
module Lifecycle {
  import opened Text

  datatype Status = Draft | Scheduled | Active | Paused | Done

  /** `searching`: it has sent a heartbeat and explores. */
  datatype Session = Session(live: bool, searching: bool, finalizeAt: Option<int>, abortAt: Option<int>)

  datatype Event = FinalizeAsked(session: nat) | AbortAsked(session: nat) | WindowShut(at: int) | CampaignDone | Noted

  /** `clock`: it has a nightly schedule; `policy`: a policy searches for it;
      `until`: a forced start holds it open. */
  datatype State = State(
    status: Status, clock: bool, policy: bool, start: Option<int>, end: Option<int>, until: Option<int>,
    sessions: seq<Session>, liveRuns: nat, events: seq<Event>)

  datatype Call =
    | SetStatus(status: Status)
    | SetSchedule(valid: bool, clock: bool, start: Option<int>, end: Option<int>)
    | ForceStart(now: int, hours: int, searchTime: bool)
    | ForceStop(now: int)
    | StartManaged(owner: bool, now: int, hold: int)
    | ExtendManaged(owner: bool, until: int)
    | StopManaged(owner: bool, now: int)
    | ValidateConfigs(valid: bool, now: int, hours: int)
    | RetryFailed(any: bool)
    | Tick(now: int, window: Option<(int, int)>, finished: bool)   // its clock, when it has one
    | RunStarts | RunEnds
    | SessionOpens | SessionSearches(i: nat) | SessionEnds(i: nat, exhausted: bool)

  // ---- The calls ----

  predicate AnyLive(ss: seq<Session>) {
    exists i :: 0 <= i < |ss| && ss[i].live
  }

  function Created(clock: bool, policy: bool, start: Option<int>, end: Option<int>): State {
    State(if clock then Scheduled else Draft, clock, policy, start, end, None, [], 0, [Noted])
  }

  /** Why a status is refused. */
  predicate Refuses(s: State, status: Status) {
    || status == Draft
    || (status == Done && (s.status == Active || s.liveRuns > 0 || AnyLive(s.sessions)))
    || (status == Scheduled && !s.clock)
    || (status == Active && s.policy && s.end.None? && !s.clock)
  }

  function FirstLive(ss: seq<Session>): (i: Option<nat>)
    ensures i.Some? ==> i.value < |ss| && ss[i.value].live && forall j :: 0 <= j < i.value ==> !ss[j].live
    ensures i.None? ==> !AnyLive(ss)
  {
    if ss == [] then None
    else
      var before := FirstLive(ss[..|ss| - 1]);
      if before.Some? then before
      else if ss[|ss| - 1].live then Some(|ss| - 1)
      else None
  }

  /** Its policy searches and was not asked to finalize yet. */
  predicate CanFinalize(s: State) {
    s.policy && var i := FirstLive(s.sessions);
    i.Some? && s.sessions[i.value].searching && s.sessions[i.value].finalizeAt.None?
  }

  function AskedToFinalize(s: State, now: int): State
    requires CanFinalize(s)
  {
    var i := FirstLive(s.sessions).value;
    s.(sessions := s.sessions[i := s.sessions[i].(finalizeAt := Some(now))],
       events := s.events + [FinalizeAsked(i)])
  }

  /** The first live session is asked to abort, if a policy has one that was not. */
  function FirstAborted(s: State, now: int): State {
    var i := FirstLive(s.sessions);
    if s.policy && i.Some? && s.sessions[i.value].abortAt.None? then
      s.(sessions := s.sessions[i.value := s.sessions[i.value].(abortAt := Some(now))],
         events := s.events + [AbortAsked(i.value)])
    else s
  }

  function Stopped(s: State, now: int): State {
    var t := FirstAborted(s, now);
    if s.status == Done then t.(until := None, events := t.events + [Noted])
    else if s.policy && !s.clock then t.(status := Done, until := None, events := t.events + [CampaignDone, Noted])
    else t.(status := Paused, until := None, events := t.events + [Noted])
  }

  function HeldOpen(s: State, now: int, end: int): State {
    s.(status := Active, start := Some(now), end := Some(end), until := Some(end), events := s.events + [Noted])
  }

  function Aborted(ss: seq<Session>, now: int): (r: seq<Session>)
    ensures |r| == |ss|
    ensures forall i :: 0 <= i < |ss| ==>
      r[i] == if ss[i].live && ss[i].abortAt.None? then ss[i].(abortAt := Some(now)) else ss[i]
  {
    seq(|ss|, i requires 0 <= i < |ss| =>
      if ss[i].live && ss[i].abortAt.None? then ss[i].(abortAt := Some(now)) else ss[i])
  }

  function AbortEvents(ss: seq<Session>): seq<Event> {
    if ss == [] then []
    else
      var last := ss[|ss| - 1];
      AbortEvents(ss[..|ss| - 1]) + (if last.live && last.abortAt.None? then [AbortAsked(|ss| - 1)] else [])
  }

  /** Its window shut and its live sessions asked to abort. */
  function Closing(s: State, now: int): State {
    var shut := s.end.None? || s.end.value > now;
    s.(until := None, end := if shut then Some(now) else s.end, sessions := Aborted(s.sessions, now),
       events := s.events + (if shut then [WindowShut(now)] else []) + AbortEvents(s.sessions))
  }

  function Closed(s: State, now: int): State {
    if s.status == Done then s
    else
      var t := Closing(s, now);
      if s.liveRuns > 0 || AnyLive(s.sessions) then t
      else t.(status := Done, events := t.events + [CampaignDone])
  }

  function Ticked(s: State, now: int, window: Option<(int, int)>, finished: bool): State {
    if s.status != Scheduled && s.status != Active then s
    else if s.until.Some? && now < s.until.value then s
    else
      var t := if s.until.Some? then s.(until := None, events := s.events + [Noted]) else s;
      if !s.clock then t
      else if window.Some? then
        var w := t.(start := Some(window.value.0), end := Some(window.value.1));
        if s.status == Active then w else w.(status := Active, events := w.events + [Noted])
      else if s.status != Active then t
      else t.(status := if finished then Done else Scheduled, events := t.events + [Noted])
  }

  const NEW_SESSION := Session(true, false, None, None)

  const FORCE_START_MAX_HOURS := 720

  function After(s: State, c: Call): State {
    match c
    case SetStatus(status) => if Refuses(s, status) then s else s.(status := status, events := s.events + [Noted])
    case SetSchedule(valid, clock, start, end) =>
      if !valid then s
      else
        var t := s.(clock := clock, events := s.events + [Noted]);
        var u := if start.Some? || end.Some? then t.(start := start, end := end) else t;
        if clock && s.status == Draft then u.(status := Scheduled)
        else if !clock && s.status == Scheduled then u.(status := Paused)
        else u
    case ForceStart(now, hours, searchTime) =>
      if s.policy && !searchTime then s
      else HeldOpen(s, now, now + 3600 * (if hours == 0 then FORCE_START_MAX_HOURS else hours))
    case ForceStop(now) => if CanFinalize(s) then AskedToFinalize(s, now) else Stopped(s, now)
    case StartManaged(owner, now, hold) =>
      if owner && (s.status == Draft || s.status == Scheduled) then HeldOpen(s, now, now + hold) else s
    case ExtendManaged(owner, until) =>
      if owner && s.status == Active then s.(end := Some(until), until := Some(until)) else s
    case StopManaged(owner, now) => if owner then Closed(s, now) else s
    case ValidateConfigs(valid, now, hours) =>
      if !s.policy || AnyLive(s.sessions) || !valid then s
      else
        var t := HeldOpen(s, now, now + 3600 * hours);
        t.(sessions := t.sessions + [NEW_SESSION])
    case RetryFailed(any) =>
      s.(status := if any && s.status == Done then Active else s.status, events := s.events + [Noted])
    case Tick(now, window, finished) => Ticked(s, now, window, finished)
    case RunStarts => s.(liveRuns := s.liveRuns + 1)
    case RunEnds => if s.liveRuns > 0 then s.(liveRuns := s.liveRuns - 1) else s
    case SessionOpens => s.(sessions := s.sessions + [NEW_SESSION])
    case SessionSearches(i) =>
      if i < |s.sessions| && s.sessions[i].live then
        s.(sessions := s.sessions[i := s.sessions[i].(searching := true)])
      else s
    case SessionEnds(i, exhausted) =>
      if i < |s.sessions| && s.sessions[i].live then
        var t := s.(sessions := s.sessions[i := s.sessions[i].(live := false, searching := false)],
                    events := s.events + [Noted]);
        if s.status == Active && (!s.clock || exhausted) then
          t.(status := Done, events := t.events + [CampaignDone])
        else t
      else s
  }

  // ---- What every call keeps ----

  function Count(es: seq<Event>, e: Event): nat {
    if es == [] then 0 else Count(es[..|es| - 1], e) + if es[|es| - 1] == e then 1 else 0
  }

  lemma {:induction false} CountAppends(a: seq<Event>, b: seq<Event>, e: Event)
    ensures Count(a + b, e) == Count(a, e) + Count(b, e)
  {
    if b == [] {
      assert a + b == a;
    } else {
      CountAppends(a, b[..|b| - 1], e);
      assert (a + b)[..|a + b| - 1] == a + b[..|b| - 1];
    }
  }

  function Once(asked: Option<int>): nat { if asked.Some? then 1 else 0 }

  /** A session was asked to finalize, and to abort, as often as its timestamps
      say: once or never. */
  predicate AskedOnce(s: State, i: nat) {
    if i < |s.sessions| then
      && Count(s.events, AbortAsked(i)) == Once(s.sessions[i].abortAt)
      && Count(s.events, FinalizeAsked(i)) == Once(s.sessions[i].finalizeAt)
    else Count(s.events, AbortAsked(i)) == 0 && Count(s.events, FinalizeAsked(i)) == 0
  }

  /** Only a campaign with a clock waits for one. */
  predicate Wakes(s: State) {
    s.status == Scheduled ==> s.clock
  }

  ghost predicate Inv(s: State) {
    Wakes(s) && forall i: nat :: AskedOnce(s, i)
  }

  lemma CallWakes(s: State, c: Call)
    requires Wakes(s)
    ensures Wakes(After(s, c))
  {
  }

  /** Events that ask no session for anything. */
  predicate Quiet(es: seq<Event>) {
    forall i :: 0 <= i < |es| ==> !es[i].AbortAsked? && !es[i].FinalizeAsked?
  }

  lemma {:induction false} QuietCounts(es: seq<Event>, e: Event)
    requires Quiet(es) && (e.AbortAsked? || e.FinalizeAsked?)
    ensures Count(es, e) == 0
  {
    if es != [] {
      QuietCounts(es[..|es| - 1], e);
    }
  }

  /** A step that asks nothing and touches no timestamp. */
  lemma QuietStep(s: State, t: State, more: seq<Event>, i: nat)
    requires AskedOnce(s, i) && t.events == s.events + more && Quiet(more)
    requires |s.sessions| <= |t.sessions|
    requires i < |s.sessions| ==> SameAsked(s.sessions[i], t.sessions[i])
    requires |s.sessions| <= i < |t.sessions| ==> t.sessions[i] == NEW_SESSION
    ensures AskedOnce(t, i)
  {
    CountAppends(s.events, more, AbortAsked(i));
    CountAppends(s.events, more, FinalizeAsked(i));
    QuietCounts(more, AbortAsked(i));
    QuietCounts(more, FinalizeAsked(i));
    hide Count;
  }

  predicate SameAsked(a: Session, b: Session) {
    a.abortAt == b.abortAt && a.finalizeAt == b.finalizeAt
  }

  lemma One(e: Event, f: Event)
    ensures Count([e], f) == if e == f then 1 else 0
  {
    assert [e][..0] == [];
  }

  lemma FinalizeStep(s: State, now: int, i: nat)
    requires AskedOnce(s, i) && CanFinalize(s)
    ensures AskedOnce(AskedToFinalize(s, now), i)
  {
    hide Count, FirstLive;
    var k := FirstLive(s.sessions).value;
    CountAppends(s.events, [FinalizeAsked(k)], AbortAsked(i));
    CountAppends(s.events, [FinalizeAsked(k)], FinalizeAsked(i));
    One(FinalizeAsked(k), AbortAsked(i));
    One(FinalizeAsked(k), FinalizeAsked(i));
  }

  lemma FirstAbortStep(s: State, now: int, i: nat)
    requires AskedOnce(s, i)
    ensures AskedOnce(FirstAborted(s, now), i)
  {
    hide Count, FirstLive;
    var k := FirstLive(s.sessions);
    if k.Some? {
      CountAppends(s.events, [AbortAsked(k.value)], AbortAsked(i));
      CountAppends(s.events, [AbortAsked(k.value)], FinalizeAsked(i));
      One(AbortAsked(k.value), AbortAsked(i));
      One(AbortAsked(k.value), FinalizeAsked(i));
    }
  }

  lemma {:induction false} AbortEventsCount(ss: seq<Session>, i: nat)
    ensures Count(AbortEvents(ss), FinalizeAsked(i)) == 0
    ensures Count(AbortEvents(ss), AbortAsked(i)) ==
      if i < |ss| && ss[i].live && ss[i].abortAt.None? then 1 else 0
  {
    if ss != [] {
      var init, k := ss[..|ss| - 1], |ss| - 1;
      AbortEventsCount(init, i);
      var more := if ss[k].live && ss[k].abortAt.None? then [AbortAsked(k)] else [];
      CountAppends(AbortEvents(init), more, AbortAsked(i));
      CountAppends(AbortEvents(init), more, FinalizeAsked(i));
      One(AbortAsked(k), AbortAsked(i));
      One(AbortAsked(k), FinalizeAsked(i));
      assert AbortEvents(ss) == AbortEvents(init) + more;
      hide AbortEvents;
    }
  }

  lemma ClosingStep(s: State, now: int, i: nat)
    requires AskedOnce(s, i)
    ensures AskedOnce(Closing(s, now), i)
  {
    hide Count, AbortEvents;
    var shut := if s.end.None? || s.end.value > now then [WindowShut(now)] else [];
    QuietStep(s, s.(events := s.events + shut), shut, i);
    CountAppends(s.events + shut, AbortEvents(s.sessions), AbortAsked(i));
    CountAppends(s.events + shut, AbortEvents(s.sessions), FinalizeAsked(i));
    AbortEventsCount(s.sessions, i);
  }

  lemma StopStep(s: State, now: int, i: nat)
    requires AskedOnce(s, i)
    ensures AskedOnce(Stopped(s, now), i)
  {
    var t := FirstAborted(s, now);
    FirstAbortStep(s, now, i);
    hide AskedOnce, FirstAborted;
    var more := if s.status != Done && s.policy && !s.clock then [CampaignDone, Noted] else [Noted];
    QuietStep(t, Stopped(s, now), more, i);
  }

  lemma CloseStep(s: State, now: int, i: nat)
    requires AskedOnce(s, i)
    ensures AskedOnce(Closed(s, now), i)
  {
    ClosingStep(s, now, i);
    hide AskedOnce, Closing, AnyLive;
    var t := Closing(s, now);
    QuietStep(t, t.(status := Done, events := t.events + [CampaignDone]), [CampaignDone], i);
  }

  /** The other calls only add to the log, and ask no session for anything. */
  lemma OtherAdds(s: State, c: Call) returns (more: seq<Event>)
    requires !c.ForceStop? && !c.StopManaged?
    ensures After(s, c).events == s.events + more && Quiet(more)
  {
    hide AnyLive, FirstLive, Closed, Stopped, AskedToFinalize, Refuses;
    var t := After(s, c);
    more := if t.events == s.events then [] else t.events[|s.events|..];
  }

  lemma OtherKeepsAsked(s: State, c: Call, i: nat)
    requires !c.ForceStop? && !c.StopManaged?
    ensures var t := After(s, c);
      && |s.sessions| <= |t.sessions|
      && (i < |s.sessions| ==> SameAsked(s.sessions[i], t.sessions[i]))
      && (|s.sessions| <= i < |t.sessions| ==> t.sessions[i] == NEW_SESSION)
  {
    hide AnyLive, FirstLive, Closed, Stopped, AskedToFinalize, Refuses;
  }

  lemma OtherStep(s: State, c: Call, i: nat)
    requires AskedOnce(s, i) && !c.ForceStop? && !c.StopManaged?
    ensures AskedOnce(After(s, c), i)
  {
    hide AskedOnce, After;
    var more := OtherAdds(s, c);
    OtherKeepsAsked(s, c, i);
    QuietStep(s, After(s, c), more, i);
  }

  /** Every call keeps the invariant. */
  lemma CallKeeps(s: State, c: Call)
    requires Inv(s)
    ensures Inv(After(s, c))
  {
    CallWakes(s, c);
    forall i: nat ensures AskedOnce(After(s, c), i) {
      match c
      case ForceStop(now) =>
        if CanFinalize(s) { FinalizeStep(s, now, i); } else { StopStep(s, now, i); }
      case StopManaged(_, now) => CloseStep(s, now, i);
      case _ => OtherStep(s, c, i);
    }
  }

  // ---- Every run ----

  function Run(s: State, calls: seq<Call>): State {
    if calls == [] then s else After(Run(s, calls[..|calls| - 1]), calls[|calls| - 1])
  }

  lemma CreatedInv(clock: bool, policy: bool, start: Option<int>, end: Option<int>)
    ensures Inv(Created(clock, policy, start, end))
  {
    forall i: nat ensures AskedOnce(Created(clock, policy, start, end), i) {
      One(Noted, AbortAsked(i));
      One(Noted, FinalizeAsked(i));
    }
  }

  /** Whatever happens to a campaign, it is never left waiting for a clock it does
      not have, and no session is asked twice for the same thing. */
  lemma {:induction false} EveryRun(s: State, calls: seq<Call>)
    requires Inv(s)
    ensures Inv(Run(s, calls))
  {
    hide Inv;
    if calls != [] {
      EveryRun(s, calls[..|calls| - 1]);
      CallKeeps(Run(s, calls[..|calls| - 1]), calls[|calls| - 1]);
    }
  }

  /** `b` has every session of `a`, with each request made of it still made. */
  predicate NothingUnasked(a: State, b: State) {
    && |a.sessions| <= |b.sessions|
    && forall i :: 0 <= i < |a.sessions| ==>
         (a.sessions[i].abortAt.Some? ==> b.sessions[i].abortAt == a.sessions[i].abortAt)
         && (a.sessions[i].finalizeAt.Some? ==> b.sessions[i].finalizeAt == a.sessions[i].finalizeAt)
  }

  lemma CallUnasksNothing(s: State, c: Call)
    ensures NothingUnasked(s, After(s, c))
  {
    hide AnyLive, AbortEvents;
  }

  /** A request, once made, stands for good. */
  lemma {:induction false} RunUnasksNothing(s: State, calls: seq<Call>)
    ensures NothingUnasked(s, Run(s, calls))
  {
    if calls != [] {
      RunUnasksNothing(s, calls[..|calls| - 1]);
      CallUnasksNothing(Run(s, calls[..|calls| - 1]), calls[|calls| - 1]);
      hide Run, After;
    }
  }

  // ---- Who may wake it ----

  predicate Reopens(c: Call) {
    c.ForceStart? || c.ValidateConfigs? || c.RetryFailed? || c.SetStatus?
  }

  lemma NotReopened(s: State, c: Call)
    requires !Reopens(c)
    ensures s.status == Done ==> After(s, c).status == Done
    ensures s.status == Paused ==> After(s, c).status == Paused || After(s, c).status == Done
  {
    hide AnyLive, FirstLive, AbortEvents, Aborted;
  }

  /** A finished campaign stays finished until a person asks for more: neither
      its clock, nor its plugin, nor a stop reopens it. */
  lemma {:induction false} DoneStays(s: State, calls: seq<Call>)
    requires s.status == Done && forall c :: c in calls ==> !Reopens(c)
    ensures Run(s, calls).status == Done
  {
    if calls != [] {
      DoneStays(s, calls[..|calls| - 1]);
      hide After;
      NotReopened(Run(s, calls[..|calls| - 1]), calls[|calls| - 1]);
    }
  }

  /** A paused campaign is woken by a person alone. */
  lemma {:induction false} PausedStays(s: State, calls: seq<Call>)
    requires s.status == Paused && forall c :: c in calls ==> !Reopens(c)
    ensures var t := Run(s, calls); t.status == Paused || t.status == Done
  {
    if calls != [] {
      PausedStays(s, calls[..|calls| - 1]);
      hide After;
      NotReopened(Run(s, calls[..|calls| - 1]), calls[|calls| - 1]);
    }
  }

  // ---- Closing a managed campaign ----

  /** Asked again a moment later, with nothing else done in between, it changes
      nothing. */
  lemma ClosingTwice(s: State, now: int, later: int)
    requires later >= now
    ensures Closed(Closed(s, now), later) == Closed(s, now)
  {
    var t := Closed(s, now);
    if t.status != Done {
      forall i | 0 <= i < |s.sessions| ensures Aborted(t.sessions, later)[i] == t.sessions[i] {}
      NoEvents(t.sessions);
      assert AnyLive(s.sessions) ==> AnyLive(t.sessions) by {
        if i :| 0 <= i < |s.sessions| && s.sessions[i].live {
          assert t.sessions[i].live;
        }
      }
      hide AbortEvents, AnyLive;
      assert t.events + [] + [] == t.events;
      assert Aborted(t.sessions, later) == t.sessions;
    }
  }

  lemma {:induction false} NoEvents(ss: seq<Session>)
    requires forall i :: 0 <= i < |ss| ==> ss[i].live ==> ss[i].abortAt.Some?
    ensures AbortEvents(ss) == []
  {
    if ss != [] {
      NoEvents(ss[..|ss| - 1]);
    }
  }

  /** What still runs. */
  function LiveCount(ss: seq<Session>): nat {
    if ss == [] then 0 else LiveCount(ss[..|ss| - 1]) + if ss[|ss| - 1].live then 1 else 0
  }

  function Work(s: State): nat { s.liveRuns + LiveCount(s.sessions) }

  lemma {:induction false} NoneLive(ss: seq<Session>)
    ensures LiveCount(ss) == 0 <==> !AnyLive(ss)
  {
    if ss != [] {
      var init := ss[..|ss| - 1];
      NoneLive(init);
      if AnyLive(ss) {
        var i :| 0 <= i < |ss| && ss[i].live;
        assert i < |init| ==> init[i].live;
      }
      if AnyLive(init) {
        var i :| 0 <= i < |init| && init[i].live;
        assert ss[i].live;
      }
    }
  }

  lemma {:induction false} OneEnds(ss: seq<Session>, i: nat, dead: Session)
    requires i < |ss| && ss[i].live && !dead.live
    ensures LiveCount(ss[i := dead]) == LiveCount(ss) - 1
  {
    var init, k := ss[..|ss| - 1], |ss| - 1;
    if i < k {
      OneEnds(init, i, dead);
      assert ss[i := dead][..k] == init[i := dead];
    } else {
      assert ss[i := dead][..k] == init;
    }
  }

  lemma {:induction false} SameLive(a: seq<Session>, b: seq<Session>)
    requires |a| == |b| && forall i :: 0 <= i < |a| ==> a[i].live == b[i].live
    ensures LiveCount(a) == LiveCount(b)
  {
    if a != [] {
      SameLive(a[..|a| - 1], b[..|b| - 1]);
    }
  }

  /** A step while it winds down: what runs ends, or the plugin asks again. */
  predicate WindsDown(c: Call) {
    c.RunEnds? || c.SessionEnds? || (c.StopManaged? && c.owner)
  }

  /** The step ended something that ran. */
  predicate EndsWork(s: State, c: Call) {
    (c.RunEnds? && s.liveRuns > 0) || (c.SessionEnds? && c.i < |s.sessions| && s.sessions[c.i].live)
  }

  /** Nothing new starts, and each end is one less. */
  lemma WorkLeft(s: State, c: Call)
    requires WindsDown(c)
    ensures Work(After(s, c)) == Work(s) - if EndsWork(s, c) then 1 else 0
    ensures s.status == Done ==> After(s, c).status == Done
  {
    match c
    case SessionEnds(i, _) =>
      if i < |s.sessions| && s.sessions[i].live {
        OneEnds(s.sessions, i, s.sessions[i].(live := false, searching := false));
      }
    case StopManaged(_, now) => SameLive(s.sessions, Aborted(s.sessions, now));
    case _ =>
    hide LiveCount, AnyLive, AbortEvents;
  }

  function EndsIn(s: State, calls: seq<Call>): nat {
    if calls == [] then 0
    else
      EndsIn(s, calls[..|calls| - 1]) +
      if EndsWork(Run(s, calls[..|calls| - 1]), calls[|calls| - 1]) then 1 else 0
  }

  lemma {:induction false} WorkRunsOut(s: State, calls: seq<Call>)
    requires forall c :: c in calls ==> WindsDown(c)
    ensures Work(Run(s, calls)) == Work(s) - EndsIn(s, calls)
    ensures s.status == Done ==> Run(s, calls).status == Done
  {
    if calls != [] {
      WorkRunsOut(s, calls[..|calls| - 1]);
      WorkLeft(Run(s, calls[..|calls| - 1]), calls[|calls| - 1]);
      hide After, Work, EndsWork;
    }
  }

  /** The end of a session that ends the campaign with it: its last window is
      over, or the policy said its search is exhausted. */
  predicate EndsCampaign(s: State, c: Call) {
    && c.SessionEnds? && c.i < |s.sessions| && s.sessions[c.i].live
    && s.status == Active && (!s.clock || c.exhausted)
  }

  ghost predicate SessionEndedIt(s: State, calls: seq<Call>) {
    exists i :: 0 <= i < |calls| && EndsCampaign(Run(s, calls[..i]), calls[i])
  }

  /** While it winds down a campaign becomes done in two ways only. */
  lemma BecomesDone(s: State, c: Call)
    requires WindsDown(c) && s.status != Done
    ensures After(s, c).status == Done <==> EndsCampaign(s, c) || (c.StopManaged? && Work(s) == 0)
  {
    NoneLive(s.sessions);
    hide LiveCount, AnyLive, AbortEvents;
  }

  lemma {:induction false} DoneHow(s: State, calls: seq<Call>)
    requires s.status != Done && forall c :: c in calls ==> WindsDown(c)
    ensures SessionEndedIt(s, calls) ==> Run(s, calls).status == Done
    ensures Run(s, calls).status == Done ==> SessionEndedIt(s, calls) || Work(Run(s, calls)) == 0
  {
    if calls != [] {
      var init, c := calls[..|calls| - 1], calls[|calls| - 1];
      DoneHow(s, init);
      WorkLeft(Run(s, init), c);
      hide After, Work, EndsWork;
      if Run(s, init).status != Done {
        BecomesDone(Run(s, init), c);
      }
      EndedLonger(s, calls);
    }
  }

  lemma EndedLonger(s: State, calls: seq<Call>)
    requires calls != []
    ensures var init := calls[..|calls| - 1];
      SessionEndedIt(s, calls) <==> SessionEndedIt(s, init) || EndsCampaign(Run(s, init), calls[|calls| - 1])
  {
    hide EndsCampaign, Run;
    var init := calls[..|calls| - 1];
    if SessionEndedIt(s, init) {
      var i :| 0 <= i < |init| && EndsCampaign(Run(s, init[..i]), init[i]);
      assert calls[..i] == init[..i] && calls[i] == init[i];
    }
    if SessionEndedIt(s, calls) {
      var i :| 0 <= i < |calls| && EndsCampaign(Run(s, calls[..i]), calls[i]);
      if i < |init| {
        assert calls[..i] == init[..i] && calls[i] == init[i];
      }
    }
    assert calls[..|calls| - 1] == init;
  }

  /** The plugin that keeps asking is told that the campaign is done. */
  predicate ToldDone(s: State, calls: seq<Call>, now: int) {
    Closed(Run(s, calls), now).status == Done
  }

  /** A campaign that is not done when the plugin begins: it is told it is done,
      however ends and asking alternate, exactly when nothing of the campaign
      runs any more or the end of a session ended the campaign. */
  lemma ToldDoneExactly(s: State, calls: seq<Call>, now: int)
    requires s.status != Done && forall c :: c in calls ==> WindsDown(c)
    ensures EndsIn(s, calls) <= Work(s)
    ensures ToldDone(s, calls, now) <==> EndsIn(s, calls) == Work(s) || SessionEndedIt(s, calls)
  {
    WorkRunsOut(s, calls);
    DoneHow(s, calls);
    NoneLive(Run(s, calls).sessions);
    hide Run, EndsIn, LiveCount, AnyLive, AbortEvents, SessionEndedIt;
  }

  /** Never too early, whatever the order: what the promise of the stop says. */
  ghost predicate DoneMeansOver(s: State) {
    forall calls: seq<Call>, now: int ::
      (forall c :: c in calls ==> WindsDown(c)) && ToldDone(s, calls, now) ==> EndsIn(s, calls) == Work(s)
  }

  /** That holds of a campaign exactly when it is not open, has no live session,
      or has one with nothing else running. */
  lemma DoneMeansOverExactly(s: State)
    requires s.status != Done
    ensures DoneMeansOver(s) <==> s.status != Active || !AnyLive(s.sessions) || Work(s) == 1
  {
    if s.status == Active && AnyLive(s.sessions) && Work(s) != 1 {
      var i :| 0 <= i < |s.sessions| && s.sessions[i].live;
      EndsTooEarly(s, i);
    } else {
      forall calls: seq<Call>, now | (forall c :: c in calls ==> WindsDown(c)) && ToldDone(s, calls, now)
        ensures EndsIn(s, calls) == Work(s)
      {
        ToldDoneExactly(s, calls, now);
        if SessionEndedIt(s, calls) {
          EndedWhileOpen(s, calls);
        }
      }
    }
  }

  /** One live session and something else: the session's end ends the campaign,
      and the plugin is told it is done while the rest still runs. */
  lemma EndsTooEarly(s: State, i: nat)
    requires s.status == Active && i < |s.sessions| && s.sessions[i].live && Work(s) != 1
    ensures ToldDone(s, [SessionEnds(i, true)], 0) && EndsIn(s, [SessionEnds(i, true)]) == 1 < Work(s)
  {
    var c := SessionEnds(i, true);
    assert [c][..0] == [];
    assert Run(s, [c]) == After(s, c);
    WorkLeft(s, c);
    hide LiveCount, AnyLive, AbortEvents;
    assert EndsIn(s, [c]) == 1;
  }

  /** A session can end the campaign only while it is open, and then was one of
      what ran. */
  lemma {:induction false} EndedWhileOpen(s: State, calls: seq<Call>)
    requires s.status != Done && (forall c :: c in calls ==> WindsDown(c)) && SessionEndedIt(s, calls)
    ensures s.status == Active && AnyLive(s.sessions) && EndsIn(s, calls) >= 1
  {
    var init, c := calls[..|calls| - 1], calls[|calls| - 1];
    EndedLonger(s, calls);
    if SessionEndedIt(s, init) {
      EndedWhileOpen(s, init);
    } else {
      WindsDownKeeps(s, init);
      var t := Run(s, init);
      assert EndsWork(t, c);
      assert t.sessions[c.i].live;
      assert s.sessions[c.i].live;
    }
  }

  /** Winding down opens nothing: no status but done is new, and no session. */
  lemma {:induction false} WindsDownKeeps(s: State, calls: seq<Call>)
    requires forall c :: c in calls ==> WindsDown(c)
    ensures var t := Run(s, calls);
      && (t.status == s.status || t.status == Done) && |t.sessions| == |s.sessions|
      && forall i :: 0 <= i < |t.sessions| && t.sessions[i].live ==> s.sessions[i].live
  {
    if calls != [] {
      WindsDownKeeps(s, calls[..|calls| - 1]);
      hide AnyLive, AbortEvents, Run;
      var t, c := Run(s, calls[..|calls| - 1]), calls[|calls| - 1];
      StepOpensNothing(t, c);
      RunLast(s, calls);
    }
  }

  lemma RunLast(s: State, calls: seq<Call>)
    requires calls != []
    ensures Run(s, calls) == After(Run(s, calls[..|calls| - 1]), calls[|calls| - 1])
  {
  }

  lemma StepOpensNothing(s: State, c: Call)
    requires WindsDown(c)
    ensures var t := After(s, c);
      && (t.status == s.status || t.status == Done) && |t.sessions| == |s.sessions|
      && forall i :: 0 <= i < |t.sessions| && t.sessions[i].live ==> s.sessions[i].live
  {
    hide AnyLive, AbortEvents;
  }

  /** The shut window of a campaign that is not done stays shut at the next tick
      of its clock exactly when it is not inside one of its nightly windows. */
  lemma ShutStaysExactly(s: State, now: int, later: int, window: Option<(int, int)>, finished: bool)
    requires s.status == Active && Closed(s, now).status == Active
    requires window.Some? ==> window.value.1 > later && later >= now
    ensures var t := Closed(s, now);
      t.end.Some? && t.end.value <= now
      && (Ticked(t, later, window, finished).end == t.end <==> !s.clock || window.None?)
  {
    hide AnyLive, AbortEvents;
  }

  // ---- The campaign ----

  class Campaign {
    var status: Status
    var clock: bool
    const policy: bool
    var start: Option<int>
    var end: Option<int>
    var until: Option<int>
    var sessions: seq<Session>
    var liveRuns: nat
    var events: seq<Event>

    constructor (clock: bool, policy: bool, start: Option<int>, end: Option<int>)
      ensures View() == Created(clock, policy, start, end)
    {
      this.clock, this.policy, this.start, this.end, this.until := clock, policy, start, end, None;
      this.sessions, this.liveRuns, this.events := [], 0, [Noted];
      this.status := if clock then Scheduled else Draft;
    }

    function View(): State
      reads this
    {
      State(status, clock, policy, start, end, until, sessions, liveRuns, events)
    }

    method Stop(now: int)
      modifies this
      ensures View() == After(old(View()), ForceStop(now))
    {
      hide AnyLive;
      if policy {
        var live := FirstLive(sessions);
        if live.Some? && sessions[live.value].searching && sessions[live.value].finalizeAt.None? {
          sessions := sessions[live.value := sessions[live.value].(finalizeAt := Some(now))];
          events := events + [FinalizeAsked(live.value)];
          return;
        }
        if live.Some? && sessions[live.value].abortAt.None? {
          sessions := sessions[live.value := sessions[live.value].(abortAt := Some(now))];
          events := events + [AbortAsked(live.value)];
        }
      }
      if status == Done {
      } else if policy && !clock {
        status := Done;
        events := events + [CampaignDone];
      } else {
        status := Paused;
      }
      until := None;
      events := events + [Noted];
    }

    /** True once it is done. */
    method StopManaged(now: int) returns (done: bool)
      modifies this
      ensures View() == Closed(old(View()), now)
      ensures done <==> status == Done
    {
      hide AnyLive, AbortEvents;
      if status == Done {
        return true;
      }
      until := None;
      if end.None? || end.value > now {
        end := Some(now);
        events := events + [WindowShut(now)];
      }
      AbortAll(now);
      SameAnyLive(old(sessions), sessions);
      if liveRuns > 0 || AnyLive(sessions) {
        return false;
      }
      status := Done;
      events := events + [CampaignDone];
      done := true;
    }

    method AbortAll(now: int)
      modifies this`sessions, this`events
      ensures sessions == Aborted(old(sessions), now) && events == old(events) + AbortEvents(old(sessions))
    {
      ghost var was := sessions;
      for i := 0 to |sessions|
        invariant |sessions| == |was|
        invariant sessions[..i] == Aborted(was, now)[..i] && sessions[i..] == was[i..]
        invariant events == old(events) + AbortEvents(was[..i])
      {
        assert sessions[i] == was[i] by { assert sessions[i..][0] == was[i..][0]; }
        assert was[..i + 1][..i] == was[..i];
        if sessions[i].live && sessions[i].abortAt.None? {
          sessions := sessions[i := sessions[i].(abortAt := Some(now))];
          events := events + [AbortAsked(i)];
        }
      }
      assert was[..|was|] == was && sessions == sessions[..|sessions|];
    }

    method HoldOpen(now: int, end: int)
      modifies this
      ensures View() == HeldOpen(old(View()), now, end)
    {
      status := Active;
      start, this.end, until := Some(now), Some(end), Some(end);
      events := events + [Noted];
    }

    method Start(now: int, hours: int, searchTime: bool)
      modifies this
      ensures View() == After(old(View()), ForceStart(now, hours, searchTime))
    {
      if !policy || searchTime {
        HoldOpen(now, now + 3600 * (if hours == 0 then FORCE_START_MAX_HOURS else hours));
      }
    }

    method StartHeld(owner: bool, now: int, hold: int)
      modifies this
      ensures View() == After(old(View()), StartManaged(owner, now, hold))
    {
      if owner && (status == Draft || status == Scheduled) {
        HoldOpen(now, now + hold);
      }
    }

    method Extend(owner: bool, until: int)
      modifies this
      ensures View() == After(old(View()), ExtendManaged(owner, until))
    {
      if owner && status == Active {
        end, this.until := Some(until), Some(until);
      }
    }

    method SetNightly(valid: bool, clock: bool, start: Option<int>, end: Option<int>)
      modifies this
      ensures View() == After(old(View()), SetSchedule(valid, clock, start, end))
    {
      if !valid {
        return;
      }
      this.clock := clock;
      if start.Some? || end.Some? {
        this.start, this.end := start, end;
      }
      if clock && status == Draft {
        status := Scheduled;
      } else if !clock && status == Scheduled {
        status := Paused;
      }
      events := events + [Noted];
    }
  }

  lemma SameAnyLive(a: seq<Session>, b: seq<Session>)
    requires |a| == |b| && forall i :: 0 <= i < |a| ==> a[i].live == b[i].live
    ensures AnyLive(a) <==> AnyLive(b)
  {
    SameLive(a, b);
    NoneLive(a);
    NoneLive(b);
    hide AnyLive, LiveCount;
  }
}
