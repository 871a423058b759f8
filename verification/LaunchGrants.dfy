/** When a session's requests are granted, and what each answer means, told from
    the request and the run table (backend/app/api/policy_sessions.py). */
module LaunchGrants {
  import opened Text
  import opened SessionLedger

  // ---- When a launch is granted ----

  /** No run was asked for under the key. */
  ghost predicate KeyUnused(runs: seq<Run>, key: Option<string>) {
    key.None? || key.value == "" || forall r :: r in runs ==> r.key != key
  }

  /** A live run has the card, or the port; port 0 is nobody's. */
  ghost predicate CardTaken(runs: seq<Run>, c: int) {
    exists r :: r in runs && r.live && c in r.cards
  }

  ghost predicate PortTaken(runs: seq<Run>, p: int) {
    p != 0 && exists r :: r in runs && r.live && r.port == p
  }

  lemma TakenIsBusy(runs: seq<Run>)
    ensures forall c :: c in BusyCards(runs) <==> CardTaken(runs, c)
    ensures forall p :: p in BusyPorts(runs) <==> PortTaken(runs, p)
  {
    forall c | CardTaken(runs, c) ensures c in BusyCards(runs) {
      var r :| r in runs && r.live && c in r.cards;
    }
  }

  /** `held` is the first free cards of the allocation, as many as it is long. */
  ghost predicate FirstOfFree(held: seq<int>, allowed: seq<int>, runs: seq<Run>)
    decreases |allowed|
  {
    held == [] || (allowed != [] &&
      if CardTaken(runs, allowed[0]) then FirstOfFree(held, allowed[1..], runs)
      else held[0] == allowed[0] && FirstOfFree(held[1..], allowed[1..], runs))
  }

  /** What the launch holds if it is granted: the cards asked for, when their
      count is right or the session has none; else what its recipe takes. */
  ghost predicate ToHold(s: Session, runs: seq<Run>, q: LaunchRequest, held: seq<int>) {
    if s.cards == [] || |q.cards| == q.needed then held == q.cards
    else q.recipe && |held| == q.needed && FirstOfFree(held, s.cards, runs)
  }

  lemma {:induction false} FirstOfFreeIs(held: seq<int>, allowed: seq<int>, runs: seq<Run>)
    ensures var free := Free(allowed, BusyCards(runs));
            FirstOfFree(held, allowed, runs) <==> held <= free
    decreases |allowed|
  {
    hide BusyCards, CardTaken;
    TakenIsBusy(runs);
    if held != [] && allowed != [] {
      if CardTaken(runs, allowed[0]) {
        FirstOfFreeIs(held, allowed[1..], runs);
      } else {
        FirstOfFreeIs(held[1..], allowed[1..], runs);
        var free := Free(allowed[1..], BusyCards(runs));
        assert held == [held[0]] + held[1..];
        assert held <= [allowed[0]] + free <==> held[0] == allowed[0] && held[1..] <= free by {
          PrefixOf(held, allowed[0], free);
        }
      }
    }
  }

  lemma PrefixOf(held: seq<int>, first: int, rest: seq<int>)
    requires held != []
    ensures held <= [first] + rest <==> held[0] == first && held[1..] <= rest
  {
    if held[0] == first && held[1..] <= rest {
      assert held == [first] + held[1..] && rest == held[1..] + rest[|held| - 1..];
    }
    if held <= [first] + rest {
      assert held[1..] == ([first] + rest)[1..|held|] == rest[..|held| - 1];
    }
  }

  lemma ToHoldIs(s: Session, runs: seq<Run>, q: LaunchRequest, held: seq<int>)
    ensures ToHold(s, runs, q, held) <==> CardsFor(s, runs, q) == Some(held)
  {
    hide BusyCards, FirstOfFree;
    FirstOfFreeIs(held, s.cards, runs);
    var free := Free(s.cards, BusyCards(runs));
    assert held <= free && |held| == q.needed ==> held == free[..q.needed];
  }

  ghost predicate Grantable(s: Session, runs: seq<Run>, held: seq<int>) {
    forall c :: c in held ==> c in s.cards && !CardTaken(runs, c)
  }

  ghost predicate PortToHave(s: Session, runs: seq<Run>, port: Option<int>) {
    match port
    case Some(p) => p in s.ports && !PortTaken(runs, p)
    case None => exists p :: p in s.ports && !PortTaken(runs, p)
  }

  /** A launch of a session that explores, under a key not used before, is
      granted exactly when its config is valid and fits a node, its cards are
      in the allocation and free, and a port is to be had. */
  lemma GrantedExactly(s: Session, runs: seq<Run>, q: LaunchRequest)
    requires q.exploring && KeyUnused(runs, q.key)
    ensures LaunchOutcome(s, runs, q).0.Created? <==>
      && q.valid && q.fits && PortToHave(s, runs, q.port)
      && exists held :: ToHold(s, runs, q, held) && Grantable(s, runs, held)
  {
    hide CardTaken, PortTaken, BusyCards, BusyPorts, ToHold, CardsFor;
    KeyIsFree(runs, q.key);
    TakenIsBusy(runs);
    forall held ensures ToHold(s, runs, q, held) <==> CardsFor(s, runs, q) == Some(held) {
      ToHoldIs(s, runs, q, held);
    }
    if CardsFor(s, runs, q).Some? {
      assert ToHold(s, runs, q, CardsFor(s, runs, q).value);
    }
  }

  lemma KeyIsFree(runs: seq<Run>, key: Option<string>)
    ensures KeyUnused(runs, key) <==> ByKey(runs, key).None?
  {
    if ByKey(runs, key).Some? {
      assert runs[ByKey(runs, key).value] in runs;
    }
  }

  /** What a granted launch holds: those cards, and the port it named or else
      the first of the allocation that is free. */
  lemma GrantedHolds(s: Session, runs: seq<Run>, q: LaunchRequest)
    requires LaunchOutcome(s, runs, q).0.Created?
    ensures var later := After(s, runs, Launch(q));
            && LaunchOutcome(s, runs, q).0 == Created(|runs|) && |later| == |runs| + 1 && later[..|runs|] == runs
            && var r := later[|runs|];
            && r.kind == PolicyLaunch && r.live && !r.serving && !r.releaseRequested && r.of.None? && r.key == q.key
            && ToHold(s, runs, q, r.cards) && PortPicked(s, runs, q.port, r.port)
  {
    hide ByKey, CardsFor, BusyCards, BusyPorts, ToHold, PortTaken;
    var held := CardsFor(s, runs, q).value;
    ToHoldIs(s, runs, q, held);
    if q.port.None? {
      FirstFreePort(s.ports, runs);
    }
  }

  ghost predicate PortPicked(s: Session, runs: seq<Run>, port: Option<int>, p: int) {
    match port
    case Some(asked) => p == asked
    case None =>
      exists k :: 0 <= k < |s.ports| && s.ports[k] == p && !PortTaken(runs, p) && AllTaken(runs, s.ports[..k])
  }

  ghost predicate AllTaken(runs: seq<Run>, ports: seq<int>) {
    forall p :: p in ports ==> PortTaken(runs, p)
  }

  lemma {:induction false} FirstFreePort(ports: seq<int>, runs: seq<Run>)
    requires FirstFree(ports, BusyPorts(runs)).Some?
    ensures var p := FirstFree(ports, BusyPorts(runs)).value;
            exists k :: 0 <= k < |ports| && ports[k] == p && !PortTaken(runs, p) && AllTaken(runs, ports[..k])
  {
    hide BusyPorts, PortTaken, BusyCards, CardTaken;
    TakenIsBusy(runs);
    if ports[0] in BusyPorts(runs) {
      FirstFreePort(ports[1..], runs);
      var p := FirstFree(ports, BusyPorts(runs)).value;
      var k :| 0 <= k < |ports[1..]| && ports[1..][k] == p && AllTaken(runs, ports[1..][..k]);
      assert ports[..k + 1] == [ports[0]] + ports[1..][..k];
      assert ports[k + 1] == p && AllTaken(runs, ports[..k + 1]);
    } else {
      assert ports[..0] == [];
    }
  }

  /** What could never be had, as things stand, however long one waits: a config
      that is not valid, a count that is wrong without a recipe, or a recipe
      larger than the allocation. */
  ghost predicate Hopeless(s: Session, q: LaunchRequest) {
    !q.valid || (s.cards != [] && |q.cards| != q.needed && (!q.recipe || q.needed > |s.cards|))
  }

  /** A recipe finds fewer free cards than it needs; or the launch fits, its
      cards are in the allocation, and one of them is busy, or else its port, or
      every port, is. */
  ghost predicate MustWait(s: Session, runs: seq<Run>, q: LaunchRequest) {
    (forall held :: !ToHold(s, runs, q, held)) ||
    (q.fits && exists held :: ToHold(s, runs, q, held) && Waits(s, runs, q, held))
  }

  ghost predicate Waits(s: Session, runs: seq<Run>, q: LaunchRequest, held: seq<int>) {
    && (forall c :: c in held ==> c in s.cards)
    && ((exists c :: c in held && CardTaken(runs, c)) || q.port.None? || q.port.value in s.ports)
  }

  /** A launch that is not granted is told to wait exactly when it is not
      hopeless and must wait; anything else is refused for good. */
  lemma RefusedHow(s: Session, runs: seq<Run>, q: LaunchRequest)
    requires q.exploring && KeyUnused(runs, q.key) && !LaunchOutcome(s, runs, q).0.Created?
    ensures var r := LaunchOutcome(s, runs, q).0;
            && (r == Refused(Invalid) || r == Refused(Busy))
            && (r == Refused(Busy) <==> !Hopeless(s, q) && MustWait(s, runs, q))
  {
    KeyIsFree(runs, q.key);
    TakenIsBusy(runs);
    hide CardTaken, PortTaken, BusyCards, BusyPorts, ByKey, ToHold, Free, CardsFor;
    forall held ensures ToHold(s, runs, q, held) <==> CardsFor(s, runs, q) == Some(held) {
      ToHoldIs(s, runs, q, held);
    }
    CardsForWhen(s, runs, q);
    if CardsFor(s, runs, q).Some? {
      assert ToHold(s, runs, q, CardsFor(s, runs, q).value);
    }
  }

  lemma CardsForWhen(s: Session, runs: seq<Run>, q: LaunchRequest)
    ensures CardsFor(s, runs, q).None? ==>
      (CardsRefusal(s, q) == Invalid <==> Hopeless(s, q.(valid := true))) && CardsRefusal(s, q) in {Invalid, Busy}
    ensures Hopeless(s, q) && q.valid ==> CardsFor(s, runs, q).None?
  {
    hide BusyCards;
  }

  /** A session that no longer explores launches nothing, and a key used before
      is answered with its run; neither changes anything. */
  lemma NothingNew(s: Session, runs: seq<Run>, q: LaunchRequest)
    requires !q.exploring || !KeyUnused(runs, q.key)
    ensures var r := LaunchOutcome(s, runs, q).0;
            && After(s, runs, Launch(q)) == runs
            && (r == Refused(NotExploring) <==> !q.exploring)
            && (q.exploring ==> r.Existing? && r.id < |runs| && runs[r.id].key == q.key)
  {
    KeyIsFree(runs, q.key);
    hide ByKey, CardsFor, PortFor;
  }

  // ---- Benchmarks, releases and ends ----

  ghost predicate LaunchIn(runs: seq<Run>, id: nat) {
    id < |runs| && runs[id].kind == PolicyLaunch
  }

  /** What a new benchmark is: it measures, and holds nothing a launch could
      want. */
  ghost predicate Benchmark(r: Run, key: Option<string>) {
    r.kind == External && r.live && !r.serving && !r.releaseRequested && r.key == key
  }

  /** A launch is measured exactly while it serves and the session explores; its
      cards and port stay the launch's. The same key again is the same run. */
  lemma BenchedExactly(s: Session, runs: seq<Run>, exploring: bool, launch: nat, key: Option<string>)
    ensures var r, later := BenchOutcome(runs, exploring, launch, key).0,
                            After(s, runs, Bench(exploring, launch, key));
            && (r == Refused(NotExploring) <==> !exploring)
            && (r == Refused(NoSuchRun) <==> exploring && !LaunchIn(runs, launch))
            && (r == Refused(NotServing) <==> exploring && LaunchIn(runs, launch) && !runs[launch].serving)
            && (r.Created? || r.Existing? <==> exploring && LaunchIn(runs, launch) && runs[launch].serving)
            && (r.Created? ==> KeyUnused(runs, key) && r.id == |runs|)
            && (r.Created? ==> later[..|runs|] == runs && |later| == |runs| + 1)
            && (r.Created? ==> Benchmark(later[r.id], key) && later[r.id].of == Some(launch))
            && (r.Created? ==> later[r.id].cards == [] && later[r.id].port == 0)
            && (r.Existing? ==> !KeyUnused(runs, key) && r.id < |runs| && runs[r.id].key == key)
            && (!r.Created? ==> later == runs)
  {
    KeyIsFree(runs, key);
    hide ByKey;
  }

  /** An engine the policy started itself is measured on a port of the
      allocation, and on some card when the session has any. */
  lemma ExternalExactly(s: Session, runs: seq<Run>, ok: bool, cards: seq<int>, port: int, key: Option<string>)
    ensures var r, later := ExternalOutcome(s, runs, ok, cards, port, key).0,
                            After(s, runs, BenchExternal(ok, cards, port, key));
            var inside := port in s.ports && (s.cards == [] || cards != []);
            && (r.Created? <==> inside && ok && KeyUnused(runs, key))
            && (r.Existing? <==> inside && !KeyUnused(runs, key))
            && (!r.Created? && !r.Existing? ==> r == Refused(Invalid))
            && (r.Existing? ==> r.id < |runs| && runs[r.id].key == key)
            && (!r.Created? ==> later == runs)
            && (r.Created? ==> r.id == |runs| && later[..|runs|] == runs && |later| == |runs| + 1)
            && (r.Created? ==> Benchmark(later[r.id], key) && later[r.id].of.None?)
            && (r.Created? ==> later[r.id].cards == cards && later[r.id].port == port)
  {
    KeyIsFree(runs, key);
    hide ByKey;
  }

  /** Asking a launch to be released, its coming up and its end touch that run
      alone: only a live launch is asked, only a live run comes up, and a run
      that ends holds nothing any more. */
  lemma ThatRunAlone(s: Session, runs: seq<Run>, id: nat, i: nat)
    requires i < |runs|
    ensures |After(s, runs, Release(id))| == |After(s, runs, Serves(id))| == |After(s, runs, Ends(id))| == |runs|
    ensures After(s, runs, Release(id))[i] == runs[i].(releaseRequested :=
              runs[i].releaseRequested || (i == id && LaunchIn(runs, i) && runs[i].live))
    ensures After(s, runs, Serves(id))[i] == runs[i].(serving := runs[i].serving || (i == id && runs[i].live))
    ensures After(s, runs, Ends(id))[i] ==
              runs[i].(live := runs[i].live && i != id, serving := runs[i].serving && i != id)
  {
  }
}
