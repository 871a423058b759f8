/** The start-up order of the plugins: each after everything it requires,
    otherwise as listed (backend/app/plugins.py). */
module PluginOrder {
  import opened Text

  datatype Plugin = Plugin(name: string, needs: seq<string>)

  datatype Failure =
    | Missing(plugin: string, names: seq<string>)  // a requirement that is not enabled
    | Cycle(chain: seq<string>)                    // the chain of names, ending where it closes

  datatype Outcome = Ordered(plugins: seq<Plugin>) | Refused(why: Failure)

  // ---- The requires graph ----

  ghost predicate UniqueNames(ps: seq<Plugin>) {
    forall i, j :: 0 <= i < j < |ps| ==> ps[i].name != ps[j].name
  }

  function Names(ps: seq<Plugin>): set<string> {
    set p | p in ps :: p.name
  }

  ghost predicate Edge(ps: seq<Plugin>, a: string, b: string) {
    exists p :: p in ps && p.name == a && b in p.needs
  }

  /** Each name on the chain requires the next one. */
  ghost predicate Path(ps: seq<Plugin>, chain: seq<string>) {
    forall i :: 0 <= i < |chain| - 1 ==> Edge(ps, chain[i], chain[i + 1])
  }

  ghost predicate HasCycle(ps: seq<Plugin>) {
    exists chain :: IsCycle(ps, chain)
  }

  ghost predicate IsCycle(ps: seq<Plugin>, chain: seq<string>) {
    |chain| >= 2 && Path(ps, chain) && chain[0] == chain[|chain| - 1]
  }

  ghost predicate Leads(ps: seq<Plugin>, chain: seq<string>, a: string, b: string) {
    |chain| >= 1 && Path(ps, chain) && chain[0] == a && chain[|chain| - 1] == b
  }

  /** `b` is `a` itself or required by it, directly or not. */
  ghost predicate Reaches(ps: seq<Plugin>, a: string, b: string) {
    exists chain :: Leads(ps, chain, a, b)
  }

  ghost predicate AllEnabled(ps: seq<Plugin>) {
    forall p :: p in ps ==> NeedsAreIn(p, ps)
  }

  /** Every plugin comes after everything it requires. */
  ghost predicate Grounded(order: seq<Plugin>) {
    forall i :: 0 <= i < |order| ==> NeedsAreIn(order[i], order[..i])
  }

  ghost predicate NeedsAreIn(p: Plugin, earlier: seq<Plugin>) {
    forall r :: r in p.needs ==> r in Names(earlier)
  }

  /** A plugin overtakes one listed before it only when something listed no
      later than that one requires it. */
  ghost predicate KeepsListing(ps: seq<Plugin>, order: seq<Plugin>, roots: nat)
    requires roots <= |ps|
  {
    forall i, b :: 0 <= i < roots && 0 <= b < |order| ==> KeptAt(ps, order, i, b)
  }

  ghost predicate KeptAt(ps: seq<Plugin>, order: seq<Plugin>, i: nat, b: nat)
    requires i < |ps| && b < |order|
  {
    order[b] == ps[i] ==> forall a :: 0 <= a < b ==> PulledIn(ps, i + 1, order[a])
  }

  ghost predicate PulledIn(ps: seq<Plugin>, roots: nat, q: Plugin)
    requires roots <= |ps|
  {
    exists r :: 0 <= r < roots && Reaches(ps, ps[r].name, q.name)
  }

  function MissingOf(needs: seq<string>, enabled: set<string>): (missing: seq<string>)
    ensures forall r :: r in missing <==> r in needs && r !in enabled
    ensures |missing| <= |needs|
  {
    if needs == [] then []
    else (if needs[0] in enabled then [] else [needs[0]]) + MissingOf(needs[1..], enabled)
  }

  function ByName(ps: seq<Plugin>, name: string): (p: Plugin)
    requires name in Names(ps)
    ensures p in ps && p.name == name
  {
    if ps[0].name == name then ps[0] else ByName(ps[1..], name)
  }

  /** What the order is promised to be, for a list of distinct plugins. */
  ghost predicate Meets(ps: seq<Plugin>, r: Outcome) {
    && (r.Ordered? <==> AllEnabled(ps) && !HasCycle(ps))
    && (r.Ordered? ==>
          && multiset(r.plugins) == multiset(ps)
          && Grounded(r.plugins)
          && KeepsListing(ps, r.plugins, |ps|))
    && (r.Refused? && r.why.Missing? ==>
          exists k :: 0 <= k < |ps| && FirstMissing(ps, k, r.why))
    && (r.Refused? && r.why.Cycle? ==>
          && AllEnabled(ps)
          && ClosesOnItself(ps, r.why.chain))
    && (Grounded(ps) ==> r == Ordered(ps))
  }

  ghost predicate FirstMissing(ps: seq<Plugin>, k: nat, why: Failure)
    requires k < |ps| && why.Missing?
  {
    && why.plugin == ps[k].name
    && why.names == MissingOf(ps[k].needs, Names(ps)) != []
    && forall j :: 0 <= j < k ==> MissingOf(ps[j].needs, Names(ps)) == []
  }

  /** A path of requirements whose last name is already on it. */
  ghost predicate ClosesOnItself(ps: seq<Plugin>, chain: seq<string>) {
    |chain| >= 2 && Path(ps, chain) && chain[|chain| - 1] in chain[..|chain| - 1]
  }

  // ---- Facts about the graph ----

  lemma ReachesSelf(ps: seq<Plugin>, a: string)
    ensures Reaches(ps, a, a)
  {
    assert Leads(ps, [a], a, a);
  }

  lemma ReachesVia(ps: seq<Plugin>, a: string, b: string, c: string)
    requires Edge(ps, a, b) && Reaches(ps, b, c)
    ensures Reaches(ps, a, c)
  {
    var chain :| Leads(ps, chain, b, c);
    var longer := [a] + chain;
    assert forall i :: 1 <= i < |longer| - 1 ==> Edge(ps, longer[i], longer[i + 1]) by {
      forall i | 1 <= i < |longer| - 1
        ensures Edge(ps, longer[i], longer[i + 1])
      {
        assert longer[i] == chain[i - 1] && longer[i + 1] == chain[i];
      }
    }
    assert Leads(ps, longer, a, c);
  }

  lemma ClosingChainIsCycle(ps: seq<Plugin>, chain: seq<string>)
    requires ClosesOnItself(ps, chain)
    ensures HasCycle(ps)
  {
    var n := |chain|;
    var k :| 0 <= k < n - 1 && chain[k] == chain[n - 1];
    var loop := chain[k..];
    forall i | 0 <= i < |loop| - 1
      ensures Edge(ps, loop[i], loop[i + 1])
    {
      assert loop[i] == chain[k + i] && loop[i + 1] == chain[k + i + 1];
    }
    assert IsCycle(ps, loop);
  }

  ghost function Position(order: seq<Plugin>, name: string): (i: nat)
    requires name in Names(order)
    ensures i < |order| && order[i].name == name
  {
    var i :| 0 <= i < |order| && order[i].name == name;
    i
  }

  lemma EdgeGoesBack(order: seq<Plugin>, a: string, b: string)
    requires UniqueNames(order) && Grounded(order) && Edge(order, a, b)
    ensures a in Names(order) && b in Names(order)
    ensures Position(order, b) < Position(order, a)
  {
  }

  lemma {:induction false} PathGoesBack(order: seq<Plugin>, chain: seq<string>)
    requires UniqueNames(order) && Grounded(order) && Path(order, chain) && |chain| >= 2
    ensures chain[0] in Names(order) && chain[|chain| - 1] in Names(order)
    ensures Position(order, chain[|chain| - 1]) < Position(order, chain[0])
    decreases |chain|
  {
    assert Edge(order, chain[0], chain[1]);
    EdgeGoesBack(order, chain[0], chain[1]);
    if |chain| > 2 {
      var rest := chain[1..];
      forall i | 0 <= i < |rest| - 1
        ensures Edge(order, rest[i], rest[i + 1])
      {
        assert rest[i] == chain[i + 1] && rest[i + 1] == chain[i + 2];
      }
      PathGoesBack(order, rest);
    }
  }

  lemma SamePluginsSameEdges(ps: seq<Plugin>, order: seq<Plugin>, chain: seq<string>)
    requires multiset(order) == multiset(ps) && Path(ps, chain)
    ensures Path(order, chain)
  {
    assert forall p :: p in ps <==> p in multiset(ps);
    assert forall p :: p in order <==> p in multiset(order);
    forall i | 0 <= i < |chain| - 1
      ensures Edge(order, chain[i], chain[i + 1])
    {
      assert Edge(ps, chain[i], chain[i + 1]);
    }
  }

  /** A list in which each plugin follows what it requires is proof that the
      requirements have no cycle and are all enabled. */
  lemma GroundedMeansAcyclic(ps: seq<Plugin>, order: seq<Plugin>)
    requires UniqueNames(order) && Grounded(order) && multiset(order) == multiset(ps)
    ensures !HasCycle(ps) && AllEnabled(ps)
  {
    assert forall p :: p in ps <==> p in multiset(ps);
    assert forall p :: p in order <==> p in multiset(order);
    if HasCycle(ps) {
      var chain :| IsCycle(ps, chain);
      SamePluginsSameEdges(ps, order, chain);
      PathGoesBack(order, chain);
    }
    forall p | p in ps
      ensures NeedsAreIn(p, ps)
    {
      var i :| 0 <= i < |order| && order[i] == p;
      assert NeedsAreIn(order[i], order[..i]);
    }
  }

  /** Ordering an ordered list again changes nothing, whatever the code, as
      long as both runs meet their promise. */
  lemma Idempotent(ps: seq<Plugin>, once: Outcome, twice: Outcome)
    requires Meets(ps, once) && once.Ordered? && Meets(once.plugins, twice)
    ensures twice == once
  {
  }

  lemma DistinctSameContents(ps: seq<Plugin>, order: seq<Plugin>)
    requires UniqueNames(ps) && UniqueNames(order)
    requires forall p :: p in order <==> p in ps
    ensures multiset(order) == multiset(ps)
  {
    forall p
      ensures multiset(order)[p] == multiset(ps)[p]
    {
      CountDistinct(ps, p);
      CountDistinct(order, p);
    }
  }

  lemma {:induction false} CountDistinct(ps: seq<Plugin>, p: Plugin)
    requires UniqueNames(ps)
    ensures multiset(ps)[p] == if p in ps then 1 else 0
  {
    if ps != [] {
      var front, last := ps[..|ps| - 1], ps[|ps| - 1];
      assert ps == front + [last];
      CountDistinct(front, p);
    }
  }

  // ---- The depth-first walk ----

  class Sorter {
    const plugins: seq<Plugin>
    var ordered: seq<Plugin>
    var visiting: set<string>

    constructor (plugins: seq<Plugin>)
      ensures this.plugins == plugins && ordered == [] && visiting == {}
    {
      this.plugins := plugins;
      ordered, visiting := [], {};
    }

    ghost predicate Valid()
      reads this
    {
      UniqueNames(plugins) && AllEnabled(plugins) && Consistent(plugins, ordered, visiting)
    }

    /** Appends `plugin` and whatever it still needs, or finds the cycle. */
    method Visit(plugin: Plugin, chain: seq<string>) returns (cycle: Option<seq<string>>)
      requires Valid() && plugin in plugins
      requires visiting == set n | n in chain
      requires Path(plugins, chain + [plugin.name])
      modifies this
      ensures cycle.Some? ==> ClosesOnItself(plugins, cycle.value)
      ensures cycle.None? ==>
                && Valid() && visiting == old(visiting)
                && plugin in ordered
                && old(ordered) <= ordered
                && AddedBy(plugins, plugin.name, old(ordered), ordered)
      ensures plugin in old(ordered) ==> cycle.None? && ordered == old(ordered)
      ensures plugin !in old(ordered) && plugin.name !in old(visiting) && NeedsAreIn(plugin, old(ordered)) ==>
                cycle.None? && ordered == old(ordered) + [plugin]
      decreases Names(plugins) - visiting
    {
      hide Grounded, Reaches;
      if plugin in ordered {
        return None;
      }
      ghost var chainNow := chain + [plugin.name];
      if plugin.name in visiting {
        assert chainNow[..|chainNow| - 1] == chain;
        return Some(chain + [plugin.name]);
      }
      visiting := visiting + {plugin.name};
      var i := 0;
      while i < |plugin.needs|
        invariant 0 <= i <= |plugin.needs|
        invariant Valid() && visiting == old(visiting) + {plugin.name}
        invariant old(ordered) <= ordered && AddedBy(plugins, plugin.name, old(ordered), ordered)
        invariant forall r :: r in plugin.needs[..i] ==> r in Names(ordered)
        invariant NeedsAreIn(plugin, old(ordered)) ==> ordered == old(ordered)
      {
        var required := ByName(plugins, plugin.needs[i]);
        Descend(plugins, plugin, chain, required);
        ghost var before := ordered;
        if NeedsAreIn(plugin, old(ordered)) {
          Standing(plugins, before, visiting, required);
        }
        cycle := Visit(required, chain + [plugin.name]);
        if cycle.Some? {
          return;
        }
        AddedThrough(plugins, plugin.name, required.name, old(ordered), before, ordered);
        assert plugin.needs[..i + 1] == plugin.needs[..i] + [required.name];
        i := i + 1;
      }
      assert plugin.needs[..i] == plugin.needs;
      Append(plugins, old(ordered), ordered, visiting, plugin);
      visiting := visiting - {plugin.name};
      assert visiting == old(visiting);
      ordered := ordered + [plugin];
      cycle := None;
    }
  }

  // ---- What one step of the walk does to the list ----

  /** The list so far: distinct plugins of `ps`, none of them on the chain
      being walked, each after what it requires. */
  ghost predicate Consistent(ps: seq<Plugin>, order: seq<Plugin>, visiting: set<string>) {
    && UniqueNames(order)
    && Grounded(order)
    && (forall p :: p in order ==> p in ps && p.name !in visiting)
  }

  /** Everything `after` has beyond `before` is required by `root`. */
  ghost predicate AddedBy(ps: seq<Plugin>, root: string, before: seq<Plugin>, after: seq<Plugin>) {
    forall i :: |before| <= i < |after| ==> Reaches(ps, root, after[i].name)
  }

  lemma Descend(ps: seq<Plugin>, p: Plugin, chain: seq<string>, required: Plugin)
    requires p in ps && required.name in p.needs && Path(ps, chain + [p.name])
    ensures Path(ps, chain + [p.name] + [required.name])
    ensures Edge(ps, p.name, required.name)
  {
  }

  lemma Standing(ps: seq<Plugin>, order: seq<Plugin>, visiting: set<string>, required: Plugin)
    requires UniqueNames(ps) && Consistent(ps, order, visiting)
    requires required in ps && required.name in Names(order)
    ensures required in order
  {
  }

  lemma AddedThrough(ps: seq<Plugin>, root: string, via: string,
                     start: seq<Plugin>, before: seq<Plugin>, after: seq<Plugin>)
    requires Edge(ps, root, via) && start <= before <= after
    requires AddedBy(ps, root, start, before) && AddedBy(ps, via, before, after)
    ensures AddedBy(ps, root, start, after)
  {
    forall i | |start| <= i < |after|
      ensures Reaches(ps, root, after[i].name)
    {
      if i < |before| {
        assert after[i] == before[i];
      } else {
        ReachesVia(ps, root, via, after[i].name);
      }
    }
  }

  lemma Append(ps: seq<Plugin>, start: seq<Plugin>, order: seq<Plugin>, visiting: set<string>, p: Plugin)
    requires UniqueNames(ps) && Consistent(ps, order, visiting) && p in ps && p.name in visiting
    requires start <= order && AddedBy(ps, p.name, start, order) && NeedsAreIn(p, order)
    ensures Consistent(ps, order + [p], visiting - {p.name})
    ensures AddedBy(ps, p.name, start, order + [p])
  {
    AppendGrounded(order, p);
    ReachesSelf(ps, p.name);
  }

  lemma AppendGrounded(order: seq<Plugin>, p: Plugin)
    requires Grounded(order) && NeedsAreIn(p, order)
    ensures Grounded(order + [p])
  {
    var longer := order + [p];
    forall i | 0 <= i < |longer|
      ensures NeedsAreIn(longer[i], longer[..i])
    {
      if i < |order| {
        assert longer[..i] == order[..i];
        assert NeedsAreIn(order[i], order[..i]);
      } else {
        assert longer[..i] == order;
      }
    }
  }

  /** Stops at the first plugin with a requirement that is not enabled. */
  method CheckEnabled(plugins: seq<Plugin>) returns (why: Option<Failure>)
    ensures why.None? <==> AllEnabled(plugins)
    ensures why.Some? ==> why.value.Missing? && exists k :: 0 <= k < |plugins| && FirstMissing(plugins, k, why.value)
  {
    hide NeedsAreIn, FirstMissing;
    var enabled := Names(plugins);
    var k := 0;
    while k < |plugins|
      invariant 0 <= k <= |plugins|
      invariant forall j :: 0 <= j < k ==> MissingOf(plugins[j].needs, enabled) == []
    {
      var missing := MissingOf(plugins[k].needs, enabled);
      NothingMissing(plugins, plugins[k]);
      if missing != [] {
        why := Some(Missing(plugins[k].name, missing));
        MissingFirst(plugins, k, why.value);
        return;
      }
      k := k + 1;
    }
    forall p | p in plugins
      ensures NeedsAreIn(p, plugins)
    {
      NothingMissing(plugins, p);
    }
    why := None;
  }

  lemma NothingMissing(ps: seq<Plugin>, p: Plugin)
    ensures MissingOf(p.needs, Names(ps)) == [] <==> NeedsAreIn(p, ps)
  {
    if MissingOf(p.needs, Names(ps)) != [] {
      assert MissingOf(p.needs, Names(ps))[0] in MissingOf(p.needs, Names(ps));
    }
  }

  lemma MissingFirst(ps: seq<Plugin>, k: nat, why: Failure)
    requires k < |ps| && why == Missing(ps[k].name, MissingOf(ps[k].needs, Names(ps))) && why.names != []
    requires forall j :: 0 <= j < k ==> MissingOf(ps[j].needs, Names(ps)) == []
    ensures FirstMissing(ps, k, why)
  {
  }

  /** The order for a list of distinct plugins, or why there is none. */
  method InDependencyOrder(plugins: seq<Plugin>) returns (r: Outcome)
    requires UniqueNames(plugins)
    ensures Meets(plugins, r)
  {
    hide Grounded, HasCycle, RootsDone, AllEnabled, ClosesOnItself, KeepsListing, Consistent, FirstMissing;
    var why := CheckEnabled(plugins);
    if why.Some? {
      if Grounded(plugins) { GroundedMeansAcyclic(plugins, plugins); }
      return Refused(why.value);
    }
    var sorter := new Sorter(plugins);
    NothingYet(plugins);
    var k := 0;
    while k < |plugins|
      invariant 0 <= k <= |plugins| && sorter.plugins == plugins && fresh(sorter)
      invariant sorter.Valid() && sorter.visiting == {}
      invariant RootsDone(plugins, sorter.ordered, k)
      invariant Grounded(plugins) ==> sorter.ordered == plugins[..k]
    {
      ghost var before := sorter.ordered;
      NextRoot(plugins, k);
      var cycle := sorter.Visit(plugins[k], []);
      if cycle.Some? {
        ClosingChainIsCycle(plugins, cycle.value);
        if Grounded(plugins) { GroundedMeansAcyclic(plugins, plugins); }
        return Refused(Cycle(cycle.value));
      }
      assert Grounded(plugins) ==> sorter.ordered == plugins[..k + 1];
      OneMoreRoot(plugins, before, sorter.ordered, k);
      k := k + 1;
    }
    AllIn(plugins, sorter.ordered);
    GroundedMeansAcyclic(plugins, sorter.ordered);
    r := Ordered(sorter.ordered);
  }

  lemma NothingYet(ps: seq<Plugin>)
    ensures Consistent(ps, [], {}) && RootsDone(ps, [], 0)
  {
  }

  lemma NextRoot(ps: seq<Plugin>, k: nat)
    requires UniqueNames(ps) && k < |ps|
    ensures Path(ps, [] + [ps[k].name])
    ensures ps[k] !in ps[..k]
    ensures Grounded(ps) ==> NeedsAreIn(ps[k], ps[..k])
  {
  }

  /** The first `k` plugins listed are in, with nothing they do not require,
      and the listing has been kept among them. */
  ghost predicate RootsDone(ps: seq<Plugin>, order: seq<Plugin>, k: nat)
    requires k <= |ps|
  {
    && (forall j :: 0 <= j < k ==> RootIn(ps, order, j))
    && (forall a :: 0 <= a < |order| ==> PulledIn(ps, k, order[a]))
    && KeepsListing(ps, order, k)
  }

  ghost predicate RootIn(ps: seq<Plugin>, order: seq<Plugin>, j: nat)
    requires j < |ps|
  {
    ps[j] in order
  }

  lemma OneMoreRoot(ps: seq<Plugin>, before: seq<Plugin>, after: seq<Plugin>, k: nat)
    requires k < |ps| && before <= after && Consistent(ps, after, {}) && RootsDone(ps, before, k)
    requires AddedBy(ps, ps[k].name, before, after) && ps[k] in after
    ensures RootsDone(ps, after, k + 1)
  {
    AllPulledIn(ps, before, after, k);
    ListingKept(ps, before, after, k);
    forall j | 0 <= j < k + 1
      ensures RootIn(ps, after, j)
    {
      if j < k {
        assert RootIn(ps, before, j);
        var c :| 0 <= c < |before| && before[c] == ps[j];
        assert after[c] == ps[j];
      }
    }
  }

  lemma AllIn(ps: seq<Plugin>, order: seq<Plugin>)
    requires UniqueNames(ps) && Consistent(ps, order, {}) && RootsDone(ps, order, |ps|)
    ensures multiset(order) == multiset(ps)
    ensures UniqueNames(order) && Grounded(order) && KeepsListing(ps, order, |ps|)
  {
    forall p | p in ps
      ensures p in order
    {
      var j :| 0 <= j < |ps| && ps[j] == p;
      assert RootIn(ps, order, j);
    }
    DistinctSameContents(ps, order);
  }

  lemma AllPulledIn(ps: seq<Plugin>, before: seq<Plugin>, after: seq<Plugin>, k: nat)
    requires k < |ps| && before <= after && RootsDone(ps, before, k)
    requires AddedBy(ps, ps[k].name, before, after)
    ensures forall a :: 0 <= a < |after| ==> PulledIn(ps, k + 1, after[a])
  {
  }

  lemma ListingKept(ps: seq<Plugin>, before: seq<Plugin>, after: seq<Plugin>, k: nat)
    requires k < |ps| && before <= after && UniqueNames(after) && RootsDone(ps, before, k)
    requires forall a :: 0 <= a < |after| ==> PulledIn(ps, k + 1, after[a])
    ensures KeepsListing(ps, after, k + 1)
  {
    forall i, b | 0 <= i < k + 1 && 0 <= b < |after|
      ensures KeptAt(ps, after, i, b)
    {
      if i < k && after[b] == ps[i] {
        assert RootIn(ps, before, i);
        EarlierRoot(ps, before, after, i, b);
      }
    }
  }

  lemma EarlierRoot(ps: seq<Plugin>, before: seq<Plugin>, after: seq<Plugin>, i: nat, b: nat)
    requires i < |ps| && before <= after && UniqueNames(after)
    requires RootIn(ps, before, i)
    requires forall c :: 0 <= c < |before| ==> KeptAt(ps, before, i, c)
    requires b < |after| && after[b] == ps[i]
    ensures KeptAt(ps, after, i, b)
  {
    var c :| 0 <= c < |before| && before[c] == ps[i];
    assert after[c].name == after[b].name;
    assert c == b;
    assert KeptAt(ps, before, i, c);
    forall a | 0 <= a < b
      ensures PulledIn(ps, i + 1, after[a])
    {
      assert PulledIn(ps, i + 1, before[a]);
    }
  }

  // ---- Loading what the installation lists ----

  /** What an installed package's entry point turns out to be. */
  datatype Entry = FailsToImport | NotAPlugin | Provides(plugin: Plugin, apiVersion: int)

  const PLUGIN_API_VERSION := 2

  datatype LoadOutcome =
    | Loaded(plugins: seq<Plugin>)
    | ListedTwice(name: string)
    | Unusable(name: string)   // not installed, fails to import, misnamed, or another API
    | NoOrder(why: Failure)

  predicate NameChar(c: char) {
    'a' <= c <= 'z' || '0' <= c <= '9' || c == '_'
  }

  /** `^[a-z][a-z0-9_]{0,39}$`: as everywhere in Python, `$` also stands before one
      final line break. */
  predicate NameShape(name: string) {
    var core := if name != "" && name[|name| - 1] == '\n' then name[..|name| - 1] else name;
    0 < |core| <= 40 && 'a' <= core[0] <= 'z' && forall c :: c in core ==> NameChar(c)
  }

  predicate Usable(name: string, installed: map<string, Entry>) {
    && name in installed
    && installed[name].Provides?
    && installed[name].plugin.name == name
    && NameShape(name)
    && installed[name].apiVersion == PLUGIN_API_VERSION
  }

  ghost predicate Distinct(names: seq<string>) {
    forall i, j :: 0 <= i < j < |names| ==> names[i] != names[j]
  }

  ghost predicate AllUsable(names: seq<string>, installed: map<string, Entry>) {
    forall n :: n in names ==> Usable(n, installed)
  }

  /** The plugins the names stand for, in the order listed. */
  ghost function Listed(names: seq<string>, installed: map<string, Entry>): (ps: seq<Plugin>)
    requires AllUsable(names, installed)
    ensures |ps| == |names|
    ensures forall i :: 0 <= i < |ps| ==>
              names[i] in installed && installed[names[i]].Provides? && ps[i] == installed[names[i]].plugin
  {
    if names == [] then []
    else
      assert Usable(names[0], installed);
      [installed[names[0]].plugin] + Listed(names[1..], installed)
  }

  /** Startup succeeds exactly when the names are distinct, each is usable, and
      the plugins they stand for have an order; it is then that order. */
  method Load(names: seq<string>, installed: map<string, Entry>) returns (r: LoadOutcome)
    ensures r.ListedTwice? ==> !Distinct(names)
    ensures r.Unusable? ==> r.name in names && !Usable(r.name, installed)
    ensures r.Loaded? || r.NoOrder? ==>
              && Distinct(names) && AllUsable(names, installed)
              && Meets(Listed(names, installed), if r.Loaded? then Ordered(r.plugins) else Refused(r.why))
  {
    var plugins: seq<Plugin> := [];
    var k := 0;
    while k < |names|
      invariant 0 <= k <= |names| && |plugins| == k
      invariant forall i :: 0 <= i < k ==> Usable(names[i], installed) && plugins[i] == installed[names[i]].plugin
      invariant Distinct(names[..k])
    {
      var name := names[k];
      if name in names[..k] {
        return ListedTwice(name);
      }
      if !Usable(name, installed) {
        return Unusable(name);
      }
      assert Distinct(names[..k + 1]);
      plugins := plugins + [installed[name].plugin];
      k := k + 1;
    }
    assert names[..k] == names;
    assert plugins == Listed(names, installed);
    var order := InDependencyOrder(plugins);
    r := match order case Ordered(ps) => Loaded(ps) case Refused(why) => NoOrder(why);
  }
}
