/** What each call leaves of a campaign, told from the campaign before it
    (backend/app/api/campaigns.py, backend/app/control/managed.py,
    backend/app/control/orchestrator/supervisor.py). */
module LifecycleCalls {
  import opened Text
  import opened Lifecycle

  // ---- A forced stop ----

  ghost predicate FirstAlive(s: State, i: nat) {
    i < |s.sessions| && s.sessions[i].live && forall j :: 0 <= j < i ==> !s.sessions[j].live
  }

  /** The policy's session searches, and was not told to finalize. */
  ghost predicate Searches(s: State, i: nat) {
    s.policy && FirstAlive(s, i) && s.sessions[i].searching && s.sessions[i].finalizeAt.None?
  }

  ghost predicate SomeSearches(s: State) {
    exists i: nat :: Searches(s, i)
  }

  lemma FirstAliveIs(s: State)
    ensures forall i: nat :: FirstAlive(s, i) <==> FirstLive(s.sessions) == Some(i)
  {
    hide FirstLive;
    forall i: nat | FirstAlive(s, i) ensures FirstLive(s.sessions) == Some(i) {
      var k := FirstLive(s.sessions);
      assert s.sessions[i].live;
      if k.Some? {
        assert !(k.value < i) && !(i < k.value);
      }
    }
  }

  /** Whoever searches goes on and is told to finalize, and the campaign stays
      as it is. Nobody searching, the campaign is done if it was, or if it was
      one policy night without a clock; it is paused otherwise; and nothing
      holds it open any more. */
  lemma StopLeaves(s: State, now: int)
    ensures var t := After(s, ForceStop(now));
            && t == s.(status := t.status, until := t.until, sessions := t.sessions, events := t.events)
            && t.until == (if SomeSearches(s) then s.until else None)
            && (SomeSearches(s) ==> t.status == s.status)
            && (!SomeSearches(s) ==> t.status == if s.status == Done || (s.policy && !s.clock) then Done else Paused)
  {
    hide FirstLive;
    FirstAliveIs(s);
    var k := FirstLive(s.sessions);
    if k.Some? {
      assert FirstAlive(s, k.value);
      assert CanFinalize(s) <==> Searches(s, k.value);
    }
  }

  /** Only the first live session of a policy is asked anything: to finalize if
      it searches and was not asked that before, else to abort unless it was. */
  lemma StopAsks(s: State, now: int, i: nat)
    requires i < |s.sessions|
    ensures var t := After(s, ForceStop(now));
            && |t.sessions| == |s.sessions|
            && t.sessions[i] ==
                 if Searches(s, i) then s.sessions[i].(finalizeAt := Some(now))
                 else if s.policy && FirstAlive(s, i) && s.sessions[i].abortAt.None? then
                   s.sessions[i].(abortAt := Some(now))
                 else s.sessions[i]
  {
    hide FirstLive;
    FirstAliveIs(s);
  }

  /** So none comes out of a stop without having been asked to end. */
  lemma StopEndsSearch(s: State, now: int, i: nat)
    requires s.policy && FirstAlive(s, i)
    ensures var r := After(s, ForceStop(now)).sessions[i]; r.finalizeAt.Some? || r.abortAt.Some?
  {
    StopAsks(s, now, i);
  }

  /** That a campaign is done is told once, by the stop that makes it so. */
  lemma StopTellsOnce(s: State, now: int)
    ensures var t := After(s, ForceStop(now));
            Count(t.events, CampaignDone) == Count(s.events, CampaignDone)
              + if t.status == Done && s.status != Done then 1 else 0
  {
    hide Count, FirstLive;
    var k := FirstLive(s.sessions);
    var t := FirstAborted(s, now);
    if k.Some? {
      CountAppends(s.events, [AbortAsked(k.value)], CampaignDone);
      One(AbortAsked(k.value), CampaignDone);
      CountAppends(s.events, [FinalizeAsked(k.value)], CampaignDone);
      One(FinalizeAsked(k.value), CampaignDone);
    }
    CountAppends(t.events, [Noted], CampaignDone);
    CountAppends(t.events, [CampaignDone], CampaignDone);
    CountAppends(t.events + [CampaignDone], [Noted], CampaignDone);
    One(Noted, CampaignDone);
    One(CampaignDone, CampaignDone);
    assert t.events + [CampaignDone, Noted] == t.events + [CampaignDone] + [Noted];
  }

  // ---- A managed stop ----

  ghost function ToldToAbort(r: Session, now: int): Session {
    if r.live && r.abortAt.None? then r.(abortAt := Some(now)) else r
  }

  /** Whatever ran, nothing of it may go on: every live session is asked to
      abort, the window is over, and nothing holds it open. It is done once
      nothing runs. */
  lemma CloseLeaves(s: State, now: int)
    requires s.status != Done
    ensures var t := Closed(s, now);
            && t == s.(status := t.status, until := None, end := t.end, sessions := t.sessions, events := t.events)
            && t.end.Some? && t.end.value <= now && (s.end.Some? && s.end.value <= now ==> t.end == s.end)
            && (s.end.None? || s.end.value > now ==> t.end == Some(now))
            && t.status == (if Work(s) == 0 then Done else s.status)
            && |t.sessions| == |s.sessions|
            && forall i :: 0 <= i < |s.sessions| ==> t.sessions[i] == ToldToAbort(s.sessions[i], now)
  {
    NoneLive(s.sessions);
    hide AbortEvents, LiveCount, AnyLive;
  }

  /** The log tells that the window was shut only when this stop shut it, and
      that the campaign is done only when this stop made it so. */
  lemma CloseTellsOnce(s: State, now: int, at: int)
    ensures var t := Closed(s, now);
            && Count(t.events, CampaignDone) == Count(s.events, CampaignDone)
                 + (if t.status == Done && s.status != Done then 1 else 0)
            && Count(t.events, WindowShut(at)) == Count(s.events, WindowShut(at))
                 + (if t.end != s.end && at == now then 1 else 0)
  {
    hide Count, AbortEvents, AnyLive;
    var shut := if s.end.None? || s.end.value > now then [WindowShut(now)] else [];
    var u := s.events + shut + AbortEvents(s.sessions);
    AbortsOnly(s.sessions, CampaignDone);
    AbortsOnly(s.sessions, WindowShut(at));
    Adds(s.events, shut, CampaignDone);
    Adds(s.events, shut, WindowShut(at));
    CountAppends(s.events + shut, AbortEvents(s.sessions), CampaignDone);
    CountAppends(s.events + shut, AbortEvents(s.sessions), WindowShut(at));
    Adds(u, [CampaignDone], CampaignDone);
    Adds(u, [CampaignDone], WindowShut(at));
    hide Aborted;
  }

  /** None or one event more. */
  lemma Adds(es: seq<Event>, more: seq<Event>, e: Event)
    requires |more| <= 1
    ensures Count(es + more, e) == Count(es, e) + if e in more then 1 else 0
  {
    hide Count;
    CountAppends(es, more, e);
    if more != [] {
      assert more == [more[0]];
      One(more[0], e);
    } else {
      NoneCounted(e);
    }
  }

  lemma NoneCounted(e: Event)
    ensures Count([], e) == 0
  {
  }

  lemma {:induction false} AbortsOnly(ss: seq<Session>, e: Event)
    requires !e.AbortAsked?
    ensures Count(AbortEvents(ss), e) == 0
  {
    if ss != [] {
      var init, last := ss[..|ss| - 1], ss[|ss| - 1];
      AbortsOnly(init, e);
      var more := if last.live && last.abortAt.None? then [AbortAsked(|ss| - 1)] else [];
      Adds(AbortEvents(init), more, e);
    }
  }

  // ---- A change of status ----

  /** A person may set a status exactly when it is not draft, nothing of the
      campaign runs or may start when it is done, and there is something to wake
      it, or to open it, when it is scheduled, or a policy's. */
  lemma StatusSetExactly(s: State, status: Status)
    ensures var t := After(s, SetStatus(status));
            && t == s.(status := t.status, events := t.events)
            && (t.events == s.events || t.events == s.events + [Noted])
            && (t.events == s.events ==> t == s)
            && (t.events != s.events ==> t.status == status)
            && (t.events != s.events <==>
                 && status != Draft
                 && (status == Done ==> s.status != Active && Work(s) == 0)
                 && (status == Scheduled ==> s.clock)
                 && (status == Active && s.policy ==> s.end.Some? || s.clock))
  {
    NoneLive(s.sessions);
    hide AnyLive, LiveCount;
    assert |s.events + [Noted]| == |s.events| + 1;
  }

  // ---- Opening ----

  /** The campaign is open from now on for `length`, held so to the end of it,
      and else as it was. */
  ghost predicate OpenedFor(s: State, t: State, now: int, length: int) {
    && t == s.(status := Active, start := Some(now), end := Some(now + length), until := Some(now + length),
               sessions := t.sessions, events := s.events + [Noted])
    && s.sessions <= t.sessions
  }

  /** A forced start opens any campaign for the hours asked for, or for as long
      as one may be open, unless a policy would have no time to search. */
  lemma ForceStartOpens(s: State, now: int, hours: int, searchTime: bool)
    ensures var t := After(s, ForceStart(now, hours, searchTime));
            if s.policy && !searchTime then t == s
            else t.sessions == s.sessions && OpenedFor(s, t, now, if hours == 0 then 30 * 24 * 3600 else hours * 3600)
  {
  }

  /** A plugin opens its own campaign once: a draft, or one that waits. */
  lemma StartManagedOpens(s: State, owner: bool, now: int, hold: int)
    ensures var t := After(s, StartManaged(owner, now, hold));
            if owner && s.status in {Draft, Scheduled} then t.sessions == s.sessions && OpenedFor(s, t, now, hold)
            else t == s
  {
  }

  /** It extends it only while it is open. */
  lemma ExtendHolds(s: State, owner: bool, until: int)
    ensures var t := After(s, ExtendManaged(owner, until));
            if owner && s.status == Active then t == s.(end := Some(until), until := Some(until)) else t == s
  {
  }

  /** Validating configs opens a policy's campaign with a session of its own,
      which does not search, unless one is live already. */
  lemma ValidationOpens(s: State, valid: bool, now: int, hours: int)
    ensures var t := After(s, ValidateConfigs(valid, now, hours));
            if s.policy && valid && LiveCount(s.sessions) == 0 then
              OpenedFor(s, t, now, hours * 3600) && t.sessions == s.sessions + [Session(true, false, None, None)]
            else t == s
  {
    NoneLive(s.sessions);
    hide AnyLive, LiveCount;
  }

  /** Retrying what failed reopens a campaign that is done, if anything did. */
  lemma RetryReopens(s: State, any: bool)
    ensures After(s, RetryFailed(any)) ==
      s.(status := if s.status == Done && any then Active else s.status, events := s.events + [Noted])
  {
  }

  // ---- The schedule and the clock ----

  /** A schedule wakes a draft; without one what waited is paused; any other
      status stays, and so does the window unless a new one is given. */
  lemma ScheduleLeaves(s: State, clock: bool, start: Option<int>, end: Option<int>)
    ensures After(s, SetSchedule(false, clock, start, end)) == s
    ensures var t := After(s, SetSchedule(true, clock, start, end));
            && t == s.(clock := clock, status := t.status, start := t.start, end := t.end, events := s.events + [Noted])
            && (t.start, t.end) == (if start.None? && end.None? then (s.start, s.end) else (start, end))
            && (t.status != s.status <==> (clock && s.status == Draft) || (!clock && s.status == Scheduled))
            && (t.status != s.status ==> t.status == if clock then Scheduled else Paused)
  {
  }

  /** The clock looks only at a campaign that waits or is open, and whose hold
      is over. */
  ghost predicate ClockLooks(s: State, now: int) {
    s.status in {Scheduled, Active} && (s.until.None? || s.until.value <= now)
  }

  /** A campaign with a clock is open after a tick exactly when it is inside one
      of its windows, and then has that window; outside it waits for the next,
      or is done if it was open and has finished. */
  lemma TickFollowsClock(s: State, now: int, window: Option<(int, int)>, finished: bool)
    ensures var t := After(s, Tick(now, window, finished));
            && t == s.(status := t.status, until := t.until, start := t.start, end := t.end, events := t.events)
            && (!ClockLooks(s, now) ==> t == s)
            && (ClockLooks(s, now) ==> t.until.None?)
            && (ClockLooks(s, now) && s.clock ==>
                 && (t.status == Active <==> window.Some?)
                 && (t.status == Done <==> window.None? && s.status == Active && finished)
                 && (t.status == Scheduled <==> window.None? && !(s.status == Active && finished)))
            && (ClockLooks(s, now) && !s.clock ==> t.status == s.status)
            && (t.start, t.end) == (if ClockLooks(s, now) && s.clock && window.Some?
                                    then (Some(window.value.0), Some(window.value.1)) else (s.start, s.end))
  {
  }

  /** A tick logs one line for a hold that is over and one for a new status. */
  lemma TickLogs(s: State, now: int, window: Option<(int, int)>, finished: bool)
    ensures var t := After(s, Tick(now, window, finished));
            t.events == s.events + (if t.until != s.until then [Noted] else [])
                                 + (if t.status != s.status then [Noted] else [])
  {
  }

  // ---- What runs ----

  /** The first heartbeat makes a live session one that searches, and a session
      that is over is never one. */
  lemma OnlyLiveSearch(s: State, i: nat, k: nat)
    requires k < |s.sessions|
    ensures var t := After(s, SessionSearches(i));
            && t == s.(sessions := t.sessions) && |t.sessions| == |s.sessions|
            && t.sessions[k] == s.sessions[k].(searching := s.sessions[k].searching || (k == i && s.sessions[k].live))
  {
  }

  /** A run or a session that begins or ends is all that changes in what runs,
      and a session that ends ends the campaign when it has no next night or its
      policy has searched all there is. */
  lemma WorkComesAndGoes(s: State, i: nat, exhausted: bool)
    ensures After(s, RunStarts) == s.(liveRuns := s.liveRuns + 1)
    ensures After(s, RunEnds).liveRuns == (if s.liveRuns == 0 then 0 else s.liveRuns - 1)
    ensures After(s, RunEnds) == s.(liveRuns := After(s, RunEnds).liveRuns)
    ensures After(s, SessionOpens) == s.(sessions := s.sessions + [Session(true, false, None, None)])
    ensures var t := After(s, SessionEnds(i, exhausted));
            if i < |s.sessions| && s.sessions[i].live then
              && t == s.(status := t.status, sessions := t.sessions, events := t.events)
              && t.sessions == s.sessions[i := s.sessions[i].(live := false, searching := false)]
              && t.status == (if s.status == Active && (exhausted || !s.clock) then Done else s.status)
              && t.events == s.events + [Noted] + (if t.status != s.status then [CampaignDone] else [])
            else t == s
  {
  }
}
