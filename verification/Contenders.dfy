/** The contender ledger of a policy session: the list a policy declares and
    declares again while it explores (backend/app/api/policy_sessions.py). */
module Contenders {
  import opened Text

  /** What a contender claims: its place, its config, and the evidence. */
  datatype Claim = Claim(rank: int, hash: string, spec: string, evidence: string, trials: seq<int>)

  /** A row's id is its place in the table. `live`: REGISTERED; otherwise SUPERSEDED. */
  datatype Row = Row(claim: Claim, deviations: string, live: bool)

  /** The answer of the config checks: the canonical config's hash, the launch
      spec written from it, and what it deviates in. */
  datatype Checked = Checked(hash: string, spec: string, deviations: string)

  datatype Entry = Entry(rank: int, checked: Option<Checked>, evidence: string, trials: seq<int>)

  datatype Reason = DuplicateRank | OverCap | Invalid

  datatype Rejection = Rejection(rank: int, reason: Reason)

  datatype Sifted = Sifted(accepted: seq<Row>, rejected: seq<Rejection>)

  datatype Answer = Frozen | Echo(accepted: seq<Claim>, rejected: seq<Rejection>)

  /** One `PUT /contenders`: whether the session still explores, the campaign's
      cap at that time, and the list sent. */
  datatype Call = Put(exploring: bool, max: nat, entries: seq<Entry>)

  // ---- Sifting one list ----

  function Considered(entries: seq<Entry>, max: nat): (es: seq<Entry>)
    ensures es <= entries && |es| <= 2 * max
    ensures |es| == 2 * max || es == entries
  {
    if |entries| <= 2 * max then entries else entries[..2 * max]
  }

  function Ranks(es: seq<Entry>): set<int> {
    set e | e in es :: e.rank
  }

  function RowOf(e: Entry): Row
    requires e.checked.Some?
  {
    var c := e.checked.value;
    Row(Claim(e.rank, c.hash, c.spec, e.evidence, e.trials), c.deviations, true)
  }

  /** Where one entry goes; `repeated`: its rank was seen before. */
  function Placed(before: Sifted, e: Entry, repeated: bool, max: nat): Sifted {
    if repeated then before.(rejected := before.rejected + [Rejection(e.rank, DuplicateRank)])
    else if |before.accepted| >= max then before.(rejected := before.rejected + [Rejection(e.rank, OverCap)])
    else if e.checked.None? then before.(rejected := before.rejected + [Rejection(e.rank, Invalid)])
    else before.(accepted := before.accepted + [RowOf(e)])
  }

  function Sift(es: seq<Entry>, max: nat): Sifted {
    if es == [] then Sifted([], [])
    else
      var init, e := es[..|es| - 1], es[|es| - 1];
      Placed(Sift(init, max), e, e.rank in Ranks(init), max)
  }

  /** The first entry of its rank, and one whose config is valid. */
  predicate Eligible(es: seq<Entry>, k: nat)
    requires k < |es|
  {
    es[k].checked.Some? && forall j :: 0 <= j < k ==> es[j].rank != es[k].rank
  }

  /** The rows of the eligible entries, in order, with no cap. */
  function AllEligible(es: seq<Entry>): seq<Row> {
    if es == [] then []
    else AllEligible(es[..|es| - 1]) + (if Eligible(es, |es| - 1) then [RowOf(es[|es| - 1])] else [])
  }

  /** What is accepted is what is eligible, up to the cap. */
  lemma {:induction false} AcceptedAreTheFirstEligible(es: seq<Entry>, max: nat)
    ensures var all := AllEligible(es);
      Sift(es, max).accepted == if |all| <= max then all else all[..max]
  {
    if es != [] {
      AcceptedAreTheFirstEligible(es[..|es| - 1], max);
    }
  }

  /** Why entry `k` is refused, decided from the list alone. */
  function Fate(es: seq<Entry>, max: nat, k: nat): Option<Reason>
    requires k < |es|
  {
    if exists j :: 0 <= j < k && es[j].rank == es[k].rank then Some(DuplicateRank)
    else if |AllEligible(es[..k])| >= max then Some(OverCap)
    else if es[k].checked.None? then Some(Invalid)
    else None
  }

  /** Entry `k` is at one place of one list: in the one its fate says, with as
      many entries before it there as earlier entries went there. */
  predicate Lands(es: seq<Entry>, max: nat, k: nat)
    requires k < |es|
  {
    var s, before, fate := Sift(es, max), Sift(es[..k], max), Fate(es, max, k);
    var a, b := |before.accepted|, |before.rejected|;
    && a + b == k
    && if fate.None?
       then a < |s.accepted| && es[k].checked.Some? && s.accepted[a] == RowOf(es[k])
       else b < |s.rejected| && s.rejected[b] == Rejection(es[k].rank, fate.value)
  }

  /** A later entry moves no earlier one. */
  lemma StillLands(es: seq<Entry>, max: nat, k: nat)
    requires k < |es| - 1 && Lands(es[..|es| - 1], max, k)
    ensures Lands(es, max, k)
  {
    hide AllEligible;
    assert es[..|es| - 1][..k] == es[..k];
    assert Fate(es[..|es| - 1], max, k) == Fate(es, max, k);
    var b, s := Sift(es[..|es| - 1], max), Sift(es, max);
    assert b.accepted <= s.accepted && b.rejected <= s.rejected;
    hide Sift, Fate;
  }

  lemma LastLands(es: seq<Entry>, max: nat)
    requires es != []
    requires var b := Sift(es[..|es| - 1], max); |b.accepted| + |b.rejected| == |es| - 1
    ensures Lands(es, max, |es| - 1)
  {
    var init := es[..|es| - 1];
    AcceptedAreTheFirstEligible(init, max);
    assert (exists j :: 0 <= j < |es| - 1 && es[j].rank == es[|es| - 1].rank) <==> es[|es| - 1].rank in Ranks(init) by {
      hide Sift;
      forall j | 0 <= j < |init| ensures es[j] == init[j] && init[j] in init {}
    }
    hide AllEligible;
  }

  /** Every considered entry lands in exactly one of accepted and rejected. */
  lemma {:induction false} EachLandsOnce(es: seq<Entry>, max: nat)
    ensures |Sift(es, max).accepted| + |Sift(es, max).rejected| == |es|
    ensures forall k :: 0 <= k < |es| ==> Lands(es, max, k)
  {
    if es != [] {
      EachLandsOnce(es[..|es| - 1], max);
      hide Lands;
      LastLands(es, max);
      forall k | 0 <= k < |es| - 1 ensures Lands(es, max, k) {
        StillLands(es, max, k);
      }
    }
  }

  predicate DistinctRanks(cs: seq<Claim>) {
    forall i, j :: 0 <= i < j < |cs| ==> cs[i].rank != cs[j].rank
  }

  function Claims(rows: seq<Row>): (cs: seq<Claim>)
    ensures |cs| == |rows| && forall i :: 0 <= i < |rows| ==> cs[i] == rows[i].claim
  {
    seq(|rows|, i requires 0 <= i < |rows| => rows[i].claim)
  }

  lemma {:induction false} AcceptedAreSound(es: seq<Entry>, max: nat)
    ensures var a := Sift(es, max).accepted;
      && |a| <= max && DistinctRanks(Claims(a))
      && (forall r :: r in a ==> r.live && r.claim.rank in Ranks(es))
  {
    if es != [] {
      AcceptedAreSound(es[..|es| - 1], max);
    }
  }

  // ---- The table ----

  /** The claims of the REGISTERED rows, in table order. */
  function Live(rows: seq<Row>): (cs: seq<Claim>)
    ensures |cs| <= |rows|
    ensures forall c :: c in cs <==> exists i :: 0 <= i < |rows| && rows[i].live && rows[i].claim == c
  {
    if rows == [] then []
    else
      var r := rows[|rows| - 1];
      Live(rows[..|rows| - 1]) + (if r.live then [r.claim] else [])
  }

  function Key(c: Claim): (int, string) { (c.rank, c.hash) }

  function Keys(cs: seq<Claim>): seq<(int, string)> {
    seq(|cs|, i requires 0 <= i < |cs| => Key(cs[i]))
  }

  /** The rank and config of each claim. Two lists sort to the same list exactly
      when they hold the same pairs the same number of times. */
  function Signature(cs: seq<Claim>): multiset<(int, string)> {
    multiset(Keys(cs))
  }

  /** The fresh claim with this rank and config; the later one when there are two. */
  function Fresh(accepted: seq<Row>, c: Claim): (f: Claim)
    ensures Key(f) == Key(c)
    ensures f == c || f in Claims(accepted)
  {
    if accepted == [] then c
    else
      var last := accepted[|accepted| - 1].claim;
      if Key(last) == Key(c) then last else Fresh(accepted[..|accepted| - 1], c)
  }

  /** A REGISTERED row measured again: the evidence, the trials and the spec are
      the new ones, everything else stays. */
  function RefreshedRow(accepted: seq<Row>, r: Row): Row {
    if r.live then r.(claim := Fresh(accepted, r.claim)) else r
  }

  function Refreshed(rows: seq<Row>, accepted: seq<Row>): (out: seq<Row>)
    ensures |out| == |rows|
    ensures forall i :: 0 <= i < |rows| ==> out[i] == RefreshedRow(accepted, rows[i])
  {
    seq(|rows|, i requires 0 <= i < |rows| => RefreshedRow(accepted, rows[i]))
  }

  function Superseded(rows: seq<Row>): (out: seq<Row>)
    ensures |out| == |rows|
    ensures forall i :: 0 <= i < |rows| ==> out[i] == rows[i].(live := false)
  {
    seq(|rows|, i requires 0 <= i < |rows| => rows[i].(live := false))
  }

  /** A list was sent and nothing in it was accepted. */
  predicate AllRejected(q: Call) {
    q.entries != [] && Sift(Considered(q.entries, q.max), q.max).accepted == []
  }

  function After(rows: seq<Row>, q: Call): (seq<Row>, Answer) {
    var s := Sift(Considered(q.entries, q.max), q.max);
    if !q.exploring then (rows, Frozen)
    else if AllRejected(q) then (rows, Echo([], s.rejected))
    else if Signature(Live(rows)) == Signature(Claims(s.accepted)) then
      (Refreshed(rows, s.accepted), Echo(Live(Refreshed(rows, s.accepted)), s.rejected))
    else (Superseded(rows) + s.accepted, Echo(Claims(s.accepted), s.rejected))
  }

  // ---- What one call does ----

  /** `after` has every row of `before`, at the same id and with the same rank
      and config, and no superseded row of `before` differs in it. */
  predicate Kept(before: seq<Row>, after: seq<Row>) {
    && |before| <= |after|
    && (forall i :: 0 <= i < |before| ==> Key(after[i].claim) == Key(before[i].claim))
    && (forall i :: 0 <= i < |before| && !before[i].live ==> after[i] == before[i])
  }

  lemma CallKeepsRows(rows: seq<Row>, q: Call)
    ensures Kept(rows, After(rows, q).0)
  {
    hide Sift, Considered, Live, Signature;
  }

  /** The table holds exactly these claims as REGISTERED, with distinct ranks. */
  ghost predicate Holds(rows: seq<Row>, claims: seq<Claim>) {
    && DistinctRanks(claims) && DistinctRanks(Live(rows))
    && |Live(rows)| == |claims|
    && (forall c :: c in Live(rows) <==> c in claims)
  }

  lemma {:induction false} LiveAppends(a: seq<Row>, b: seq<Row>)
    ensures Live(a + b) == Live(a) + Live(b)
  {
    if b == [] {
      assert a + b == a;
    } else {
      var init := b[..|b| - 1];
      LiveAppends(a, init);
      assert (a + b)[..|a + b| - 1] == a + init;
    }
  }

  lemma {:induction false} AllLive(rows: seq<Row>)
    requires forall r :: r in rows ==> r.live
    ensures Live(rows) == Claims(rows)
  {
    if rows != [] {
      AllLive(rows[..|rows| - 1]);
    }
  }

  lemma {:induction false} NoneLive(rows: seq<Row>)
    ensures Live(Superseded(rows)) == []
  {
    if rows != [] {
      assert Superseded(rows)[..|rows| - 1] == Superseded(rows[..|rows| - 1]);
      NoneLive(rows[..|rows| - 1]);
    }
  }

  lemma {:induction false} RefreshedClaims(rows: seq<Row>, accepted: seq<Row>)
    ensures |Live(Refreshed(rows, accepted))| == |Live(rows)|
    ensures forall i :: 0 <= i < |Live(rows)| ==>
      Live(Refreshed(rows, accepted))[i] == Fresh(accepted, Live(rows)[i])
  {
    if rows != [] {
      var init := rows[..|rows| - 1];
      assert Refreshed(rows, accepted)[..|rows| - 1] == Refreshed(init, accepted);
      RefreshedClaims(init, accepted);
    }
  }

  lemma {:induction false} FreshFinds(accepted: seq<Row>, c: Claim, k: nat)
    requires DistinctRanks(Claims(accepted))
    requires k < |accepted| && Key(accepted[k].claim) == Key(c)
    ensures Fresh(accepted, c) == accepted[k].claim
  {
    var last := |accepted| - 1;
    assert Claims(accepted)[k].rank == c.rank;
    if k < last {
      assert Claims(accepted)[last].rank != c.rank;
      assert Claims(accepted[..last]) == Claims(accepted)[..last];
      FreshFinds(accepted[..last], c, k);
    }
  }

  /** Two lists with the same signature: each claim has its counterpart. */
  lemma Counterpart(a: seq<Claim>, b: seq<Claim>, i: nat) returns (j: nat)
    requires Signature(a) == Signature(b) && i < |a|
    ensures j < |b| && Key(b[j]) == Key(a[i])
  {
    assert Keys(a)[i] in multiset(Keys(a));
    assert Keys(a)[i] in Keys(b);
    j :| 0 <= j < |b| && Keys(b)[j] == Keys(a)[i];
  }

  lemma SameLength(a: seq<Claim>, b: seq<Claim>)
    requires Signature(a) == Signature(b)
    ensures |a| == |b|
  {
    assert |Signature(a)| == |a| && |Signature(b)| == |b|;
  }

  /** Refreshing a list with the same signature leaves exactly the new claims. */
  lemma RefreshHolds(rows: seq<Row>, accepted: seq<Row>)
    requires DistinctRanks(Live(rows)) && DistinctRanks(Claims(accepted))
    requires Signature(Live(rows)) == Signature(Claims(accepted))
    ensures Holds(Refreshed(rows, accepted), Claims(accepted))
  {
    hide Signature, Live, Fresh;
    var was, now, sent := Live(rows), Live(Refreshed(rows, accepted)), Claims(accepted);
    RefreshedClaims(rows, accepted);
    SameLength(was, sent);
    forall i | 0 <= i < |now| ensures now[i] in sent && Key(now[i]) == Key(was[i]) {
      var k := Counterpart(was, sent, i);
      FreshFinds(accepted, was[i], k);
    }
    assert DistinctRanks(now) by {
      forall i, j | 0 <= i < j < |now| ensures now[i].rank != now[j].rank {
        assert Key(now[i]) == Key(was[i]) && Key(now[j]) == Key(was[j]);
      }
    }
    forall k | 0 <= k < |sent| ensures sent[k] in now {
      var i := Counterpart(sent, was, k);
      FreshFinds(accepted, was[i], k);
      assert now[i] == sent[k];
    }
  }

  lemma ReplaceHolds(rows: seq<Row>, accepted: seq<Row>)
    requires DistinctRanks(Claims(accepted)) && forall r :: r in accepted ==> r.live
    ensures Holds(Superseded(rows) + accepted, Claims(accepted))
  {
    hide Live;
    LiveAppends(Superseded(rows), accepted);
    NoneLive(rows);
    AllLive(accepted);
    assert Live(Superseded(rows) + accepted) == Claims(accepted);
  }

  /** The list a call puts in force: its accepted entries, unless it is refused. */
  function InForce(q: Call, standing: seq<Claim>): seq<Claim> {
    if !q.exploring || AllRejected(q) then standing
    else Claims(Sift(Considered(q.entries, q.max), q.max).accepted)
  }

  /** After one call the REGISTERED rows are the claims it put in force; a call
      that is refused, or whose whole list is, changes nothing. */
  lemma CallHolds(rows: seq<Row>, standing: seq<Claim>, q: Call)
    requires Holds(rows, standing)
    ensures Holds(After(rows, q).0, InForce(q, standing))
    ensures !q.exploring || AllRejected(q) ==> After(rows, q).0 == rows
  {
    var es := Considered(q.entries, q.max);
    var accepted := Sift(es, q.max).accepted;
    AcceptedAreSound(es, q.max);
    hide Sift, Considered, Signature, Live;
    if q.exploring && !AllRejected(q) {
      if Signature(Live(rows)) == Signature(Claims(accepted)) {
        RefreshHolds(rows, accepted);
      } else {
        ReplaceHolds(rows, accepted);
      }
    }
  }

  predicate SameRow(a: Row, b: Row) {
    a.live == b.live && Key(a.claim) == Key(b.claim) && a.deviations == b.deviations
  }

  /** Sending the same ranks and configs again adds no row and supersedes none:
      each REGISTERED row keeps its id and now shows the new evidence. */
  lemma SameListOnlyRefreshes(rows: seq<Row>, standing: seq<Claim>, q: Call)
    requires Holds(rows, standing) && q.exploring && !AllRejected(q)
    requires Signature(standing) == Signature(InForce(q, standing))
    ensures var after := After(rows, q).0;
      && |after| == |rows|
      && (forall i :: 0 <= i < |rows| ==> SameRow(after[i], rows[i]))
      && (forall i :: 0 <= i < |rows| && rows[i].live ==> after[i].claim in InForce(q, standing))
  {
    SameClaimsSameSignature(Live(rows), standing);
    CallHolds(rows, standing, q);
    hide Sift, Considered, Signature, Fresh;
    var after := After(rows, q).0;
    forall i | 0 <= i < |rows| && rows[i].live ensures after[i].claim in Live(after) {
      assert after[i].live;
    }
  }

  lemma {:induction false} SameClaimsSameSignature(a: seq<Claim>, b: seq<Claim>)
    requires DistinctRanks(a) && DistinctRanks(b) && |a| == |b|
    requires forall c :: c in a <==> c in b
    ensures Signature(a) == Signature(b)
  {
    forall k ensures multiset(Keys(a))[k] == multiset(Keys(b))[k] {
      Once(Keys(a), k);
      Once(Keys(b), k);
      if k in Keys(a) {
        var i :| 0 <= i < |a| && Key(a[i]) == k;
        assert a[i] in b;
        var j :| 0 <= j < |b| && b[j] == a[i];
        assert Keys(b)[j] == k;
      }
      if k in Keys(b) {
        var i :| 0 <= i < |b| && Key(b[i]) == k;
        assert b[i] in a;
        var j :| 0 <= j < |a| && a[j] == b[i];
        assert Keys(a)[j] == k;
      }
    }
  }

  lemma {:induction false} Once<T>(s: seq<T>, x: T)
    requires forall i, j :: 0 <= i < j < |s| ==> s[i] != s[j]
    ensures multiset(s)[x] == if x in s then 1 else 0
  {
    if s != [] {
      Once(s[..|s| - 1], x);
      assert s == s[..|s| - 1] + [s[|s| - 1]];
    }
  }

  // ---- The answer ----

  /** The entries looked at: up to twice the cap, from the front. */
  ghost predicate LookedAt(es: seq<Entry>, q: Call) {
    es <= q.entries && |es| == if |q.entries| < 2 * q.max then |q.entries| else 2 * q.max
  }

  /** The refusals of the first `k` entries, each with the reason its place in
      the list gives it. */
  ghost function Refusals(es: seq<Entry>, max: nat, k: nat): seq<Rejection>
    requires k <= |es|
  {
    if k == 0 then []
    else
      Refusals(es, max, k - 1) +
      match Fate(es, max, k - 1)
      case Some(why) => [Rejection(es[k - 1].rank, why)]
      case None => []
  }

  lemma {:induction false} RejectedAre(es: seq<Entry>, max: nat, k: nat)
    requires k <= |es|
    ensures Sift(es[..k], max).rejected == Refusals(es, max, k)
    ensures Sift(es[..k], max).accepted == [] <==> forall j :: 0 <= j < k ==> Fate(es, max, j).Some?
  {
    if k > 0 {
      RejectedAre(es, max, k - 1);
      FateDecides(es, max, k - 1);
      hide Sift, Fate;
    } else {
      assert es[..0] == [];
    }
  }

  lemma FateDecides(es: seq<Entry>, max: nat, k: nat)
    requires k < |es|
    ensures var (before, s, fate) := (Sift(es[..k], max), Sift(es[..k + 1], max), Fate(es, max, k));
            && s.rejected == before.rejected + (if fate.Some? then [Rejection(es[k].rank, fate.value)] else [])
            && |s.accepted| == |before.accepted| + if fate.Some? then 0 else 1
  {
    assert es[..k + 1][..k] == es[..k];
    AcceptedAreTheFirstEligible(es[..k], max);
    RepeatedIs(es, k);
    hide AllEligible;
  }

  lemma RepeatedIs(es: seq<Entry>, k: nat)
    requires k < |es|
    ensures es[k].rank in Ranks(es[..k]) <==> exists j :: 0 <= j < k && es[j].rank == es[k].rank
  {
    if j :| 0 <= j < k && es[j].rank == es[k].rank {
      assert es[..k][j] == es[j] && es[j] in es[..k];
    }
  }

  lemma ReplacedShows(rows: seq<Row>, accepted: seq<Row>)
    requires forall r :: r in accepted ==> r.live
    ensures Live(Superseded(rows) + accepted) == Claims(accepted)
  {
    hide Live, Superseded, Claims;
    AllLive(accepted);
    NoneLive(rows);
    LiveAppends(Superseded(rows), accepted);
    assert [] + Claims(accepted) == Claims(accepted);
  }

  lemma RefreshedEmpty(rows: seq<Row>, accepted: seq<Row>)
    requires accepted == [] && Signature(Live(rows)) == Signature(Claims(accepted))
    ensures Live(Refreshed(rows, accepted)) == []
  {
    hide Live, Refreshed;
    assert Claims(accepted) == [];
    NothingSigned(Live(rows));
    RefreshedClaims(rows, accepted);
  }

  /** A list was sent of which nothing could be taken. */
  ghost predicate NothingTaken(q: Call, es: seq<Entry>) {
    q.entries != [] && forall k :: 0 <= k < |es| ==> Fate(es, q.max, k).Some?
  }

  lemma NothingTakenIs(q: Call, es: seq<Entry>)
    requires LookedAt(es, q)
    ensures es == Considered(q.entries, q.max)
    ensures NothingTaken(q, es) <==> AllRejected(q)
    ensures Sift(es, q.max).rejected == Refusals(es, q.max, |es|)
    ensures forall r :: r in Sift(es, q.max).accepted ==> r.live
    ensures q.entries == [] ==> Sift(es, q.max).accepted == []
  {
    hide Fate, Refusals;
    assert es == Considered(q.entries, q.max);
    RejectedAre(es, q.max, |es|);
    AcceptedAreSound(es, q.max);
    assert es[..|es|] == es;
    hide Sift;
    assert q.entries == [] ==> es == [];
  }

  /** A session that no longer explores changes nothing and says so. Otherwise
      every refusal is told, in order; and what is told to be accepted is the
      REGISTERED rows of the table afterwards, unless a list was sent of which
      nothing could be taken: then nothing is, and nothing changes. */
  lemma AnswerSays(rows: seq<Row>, q: Call, es: seq<Entry>)
    requires LookedAt(es, q)
    ensures var (after, answer) := After(rows, q);
            && (answer.Frozen? <==> !q.exploring)
            && (q.exploring ==> answer.rejected == Refusals(es, q.max, |es|))
            && (q.exploring ==> answer.accepted == if NothingTaken(q, es) then [] else Live(after))
            && (!q.exploring || NothingTaken(q, es) ==> after == rows)
            && (q.exploring && q.entries == [] ==> Live(after) == [])
  {
    hide Fate, Refusals, Sift, Live, Superseded, Refreshed, Considered, Signature, NothingTaken, AllRejected, Claims;
    hide LookedAt;
    NothingTakenIs(q, es);
    var accepted := Sift(es, q.max).accepted;
    ReplacedShows(rows, accepted);
    if accepted == [] && Signature(Live(rows)) == Signature(Claims(accepted)) {
      RefreshedEmpty(rows, accepted);
    }
    EmptyIsTaken(q);
  }

  lemma EmptyIsTaken(q: Call)
    ensures q.entries == [] ==> !AllRejected(q) && Claims([]) == []
  {
  }

  lemma NothingSigned(cs: seq<Claim>)
    requires Signature(cs) == Signature([])
    ensures cs == []
  {
    assert |Signature(cs)| == |Keys(cs)| && |Signature([])| == |Keys([])|;
  }

  ghost predicate Registers(r: Row, e: Entry) {
    && r.live && r.claim.rank == e.rank && r.claim.evidence == e.evidence && r.claim.trials == e.trials
    && Some(Checked(r.claim.hash, r.claim.spec, r.deviations)) == e.checked
  }

  /** What an accepted entry is registered with. */
  lemma RegisteredAs(es: seq<Entry>, max: nat, k: nat)
    requires k < |es| && Fate(es, max, k).None?
    ensures exists r :: r in Sift(es, max).accepted && Registers(r, es[k])
  {
    EachLandsOnce(es, max);
    hide Sift, Fate;
    assert Lands(es, max, k);
    assert RowOf(es[k]) in Sift(es, max).accepted;
  }

  // ---- Every run ----

  function TableAfter(calls: seq<Call>): seq<Row> {
    if calls == [] then [] else After(TableAfter(calls[..|calls| - 1]), calls[|calls| - 1]).0
  }

  /** The accepted entries of the last call that took effect. */
  function Standing(calls: seq<Call>): seq<Claim> {
    if calls == [] then []
    else InForce(calls[|calls| - 1], Standing(calls[..|calls| - 1]))
  }

  /** After any sequence of calls the REGISTERED rows have distinct ranks, are
      no more than the cap, and are exactly what the last effective call
      accepted. */
  lemma {:induction false} LedgerIsLastEffectiveCall(calls: seq<Call>, cap: nat)
    requires forall q :: q in calls ==> q.max <= cap
    ensures Holds(TableAfter(calls), Standing(calls)) && |Live(TableAfter(calls))| <= cap
  {
    if calls != [] {
      var init, q := calls[..|calls| - 1], calls[|calls| - 1];
      LedgerIsLastEffectiveCall(init, cap);
      AcceptedAreSound(Considered(q.entries, q.max), q.max);
      CallHolds(TableAfter(init), Standing(init), q);
    }
  }

  /** No row is ever lost or renamed, and what was superseded stays as it was. */
  lemma {:induction false} SupersededStays(calls: seq<Call>, n: nat)
    requires n <= |calls|
    ensures Kept(TableAfter(calls[..n]), TableAfter(calls))
  {
    if n == |calls| {
      assert calls[..n] == calls;
    } else {
      var init := calls[..|calls| - 1];
      assert init[..n] == calls[..n];
      SupersededStays(init, n);
      hide After;
      CallKeepsRows(TableAfter(init), calls[|calls| - 1]);
    }
  }

  // ---- The handler ----

  lemma SiftNone(es: seq<Entry>, max: nat)
    ensures Sift(es[..0], max) == Sifted([], []) && Ranks(es[..0]) == {}
  {
  }

  lemma SiftNext(es: seq<Entry>, i: nat, max: nat)
    requires i < |es|
    ensures Sift(es[..i + 1], max) == Placed(Sift(es[..i], max), es[i], es[i].rank in Ranks(es[..i]), max)
    ensures Ranks(es[..i + 1]) == Ranks(es[..i]) + {es[i].rank}
  {
    assert es[..i + 1][..i] == es[..i];
    assert es[..i + 1] == es[..i] + [es[i]];
  }

  /** The loop over the list sent. */
  method SiftList(es: seq<Entry>, max: nat) returns (accepted: seq<Row>, rejected: seq<Rejection>)
    ensures Sifted(accepted, rejected) == Sift(es, max)
  {
    hide Sift, Ranks;
    SiftNone(es, max);
    var seen: set<int>;
    accepted, rejected, seen := [], [], {};
    for i := 0 to |es|
      invariant Sifted(accepted, rejected) == Sift(es[..i], max)
      invariant seen == Ranks(es[..i])
    {
      var entry := es[i];
      SiftNext(es, i, max);
      if entry.rank in seen {
        rejected := rejected + [Rejection(entry.rank, DuplicateRank)];
      } else {
        seen := seen + {entry.rank};
        if |accepted| >= max {
          rejected := rejected + [Rejection(entry.rank, OverCap)];
        } else if entry.checked.None? {
          rejected := rejected + [Rejection(entry.rank, Invalid)];
        } else {
          accepted := accepted + [RowOf(entry)];
        }
      }
    }
    assert es[..|es|] == es;
  }

  class Ledger {
    var rows: seq<Row>

    constructor ()
      ensures rows == []
    {
      rows := [];
    }

    method RefreshInPlace(accepted: seq<Row>)
      modifies this
      ensures rows == Refreshed(old(rows), accepted)
    {
      hide Fresh;
      for i := 0 to |rows|
        invariant |rows| == |old(rows)| && rows[..i] == Refreshed(old(rows), accepted)[..i]
        invariant rows[i..] == old(rows)[i..]
      {
        assert rows[i] == rows[i..][0];
        if rows[i].live {
          rows := rows[i := rows[i].(claim := Fresh(accepted, rows[i].claim))];
        }
      }
      assert rows == rows[..|rows|];
    }

    method SupersedeAll()
      modifies this
      ensures rows == Superseded(old(rows))
    {
      for i := 0 to |rows|
        invariant |rows| == |old(rows)| && rows[..i] == Superseded(old(rows))[..i]
        invariant rows[i..] == old(rows)[i..]
      {
        assert rows[i] == rows[i..][0];
        rows := rows[i := rows[i].(live := false)];
      }
      assert rows == rows[..|rows|];
    }

    method PutContenders(q: Call) returns (r: Answer)
      modifies this
      ensures rows == After(old(rows), q).0 && r == After(old(rows), q).1
    {
      hide Live, Signature, Fresh, Sift;
      if !q.exploring {
        return Frozen;
      }
      var accepted, rejected := SiftList(Considered(q.entries, q.max), q.max);
      if accepted == [] && q.entries != [] {
        return Echo([], rejected);
      }
      if Signature(Live(rows)) == Signature(Claims(accepted)) {
        RefreshInPlace(accepted);
        return Echo(Live(rows), rejected);
      }
      SupersedeAll();
      rows := rows + accepted;
      r := Echo(Claims(accepted), rejected);
    }
  }
}
