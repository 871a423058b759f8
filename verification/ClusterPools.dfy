/** Registering a cluster's GPU nodes as machines, one by one, a product at a
    time, or as one namespace-wide pool (backend/app/api/clusters.py). */
module ClusterPools {
  import opened Text

  // ---- Rows ----

  datatype Node = Node(
    node: string, hostname: string, cards: nat, product: string, gpuType: string, takesPods: bool)

  /** `cluster` is the id of the cluster a machine belongs to, if any. */
  datatype Machine = Machine(name: string, cluster: Option<int>, selector: string, cards: nat)

  /** A cluster row with what its API answers: its GPU nodes if the credential
      may list them, and else the namespace's quota if that can be read. */
  datatype Cluster = Cluster(
    id: int, name: string, productLabel: string, readable: bool, nodes: seq<Node>, quota: Option<nat>)

  datatype Outcome = Added(machines: seq<Machine>) | Unprocessable | Conflict

  const HOSTNAME_LABEL := "kubernetes.io/hostname"

  // ---- Node selectors ----

  function Split(s: string, c: char): (r: seq<string>)
    ensures |r| >= 1
  {
    var i := IndexOf(s, c);
    if i == |s| then [s] else [s[..i]] + Split(s[i + 1..], c)
  }

  function Pairs(ps: seq<string>): map<string, string> {
    if ps == [] then map[]
    else
      var rest, p := Pairs(ps[..|ps| - 1]), ps[|ps| - 1];
      var i := IndexOf(p, '=');
      if i == |p| then rest else rest[p[..i] := p[i + 1..]]
  }

  /** The host a selector names, when a hostname is all it selects by. */
  function PinnedHostname(selector: string): string {
    var pairs := Pairs(Split(selector, ','));
    if |pairs| == 1 && HOSTNAME_LABEL in pairs then Strip(pairs[HOSTNAME_LABEL]) else ""
  }

  function HostSelector(hostname: string): string { HOSTNAME_LABEL + "=" + hostname }

  function PoolSelector(c: Cluster, product: string): string { c.productLabel + "=" + product }

  function WithoutSpaces(s: string): (r: string)
    ensures ' ' !in s ==> r == s
  {
    if s == "" then "" else (if s[0] == ' ' then "" else [s[0]]) + WithoutSpaces(s[1..])
  }

  // ---- The view of a cluster ----

  predicate Own(c: Cluster, m: Machine) { m.cluster == Some(c.id) }

  predicate PinnedTo(c: Cluster, m: Machine, hostname: string) {
    Own(c, m) && hostname != "" && PinnedHostname(m.selector) == hostname
  }

  predicate SpansProduct(c: Cluster, m: Machine, product: string) {
    Own(c, m) && product != "" && WithoutSpaces(m.selector) == PoolSelector(c, product)
  }

  predicate HostRegistered(c: Cluster, ms: seq<Machine>, hostname: string) {
    exists m :: m in ms && PinnedTo(c, m, hostname)
  }

  predicate ProductRegistered(c: Cluster, ms: seq<Machine>, product: string) {
    exists m :: m in ms && SpansProduct(c, m, product)
  }

  /** The nodes the view lists. */
  function Listed(c: Cluster): seq<Node> { if c.readable then c.nodes else [] }

  /** The node listed under a hostname; the last of several. */
  function NodeAt(ns: seq<Node>, hostname: string): (r: Option<Node>)
    ensures r.Some? ==> r.value in ns && r.value.hostname == hostname
    ensures r.None? ==> forall n :: n in ns ==> n.hostname != hostname
  {
    if ns == [] then None
    else if ns[|ns| - 1].hostname == hostname then Some(ns[|ns| - 1])
    else NodeAt(ns[..|ns| - 1], hostname)
  }

  function Products(ns: seq<Node>): set<string> {
    set n | n in ns && n.product != "" :: n.product
  }

  /** The cards of a product that its pool's pods can land on. */
  function PoolCards(ns: seq<Node>, product: string): nat {
    if ns == [] then 0
    else (if ns[0].product == product && ns[0].takesPods then ns[0].cards else 0) + PoolCards(ns[1..], product)
  }

  function GpuType(ns: seq<Node>, product: string): string {
    if ns == [] then "" else if ns[0].product == product then ns[0].gpuType else GpuType(ns[1..], product)
  }

  function Names(ms: seq<Machine>): set<string> { set m | m in ms :: m.name }

  /** In order, without the repeats: `dict.fromkeys`. */
  function Distinct(ss: seq<string>): (r: seq<string>)
    ensures forall s :: s in r <==> s in ss
    ensures forall i, j :: 0 <= i < j < |r| ==> r[i] != r[j]
  {
    if ss == [] then []
    else
      var front := Distinct(ss[..|ss| - 1]);
      if ss[|ss| - 1] in front then front else front + [ss[|ss| - 1]]
  }

  function Take64(s: string): string { if |s| <= 64 then s else s[..64] }

  function Dashed(s: string): (r: string)
    ensures |r| == |s|
  {
    seq(|s|, i requires 0 <= i < |s| => if 'a' <= s[i] <= 'z' || '0' <= s[i] <= '9' then s[i] else '-')
  }

  function StripDashes(s: string): string {
    if s != "" && s[0] == '-' then StripDashes(s[1..])
    else if s != "" && s[|s| - 1] == '-' then StripDashes(s[..|s| - 1])
    else s
  }

  // ---- The three registrations ----

  function NodeMachine(c: Cluster, n: Node, name: string): Machine {
    Machine(name, Some(c.id), HostSelector(n.hostname), n.cards)
  }

  /** The node's own name, or that behind the cluster's. */
  function NodeName(c: Cluster, n: Node, taken: set<string>): Option<string> {
    var name := if n.node !in taken then n.node else c.name + "-" + n.node;
    if name in taken || |name| > 64 then None else Some(name)
  }

  /** The machines for these hosts, of which `ms` is what the view showed. */
  function AddNodes(c: Cluster, ms: seq<Machine>, hosts: seq<string>, taken: set<string>): Option<seq<Machine>>
    requires forall h :: h in hosts ==> NodeAt(Listed(c), h).Some?
  {
    if hosts == [] then Some([])
    else
      var front, h := hosts[..|hosts| - 1], hosts[|hosts| - 1];
      match AddNodes(c, ms, front, taken)
      case None => None
      case Some(added) =>
        if HostRegistered(c, ms, h) then Some(added)
        else
          var n := NodeAt(Listed(c), h).value;
          match NodeName(c, n, taken + Names(added))
          case None => None
          case Some(name) => Some(added + [NodeMachine(c, n, name)])
  }

  function RegisterNodes(c: Cluster, ms: seq<Machine>, hosts: seq<string>): Outcome {
    if exists h :: h in hosts && NodeAt(Listed(c), h).None? then Unprocessable
    else if exists h :: h in hosts && ProductRegistered(c, ms, NodeAt(Listed(c), h).value.product)
                     && !HostRegistered(c, ms, h) then Conflict
    else match AddNodes(c, ms, Distinct(hosts), Names(ms))
      case None => Conflict
      case Some(added) => Added(added)
  }

  function PoolMachine(c: Cluster, product: string, name: string): Machine {
    Machine(name, Some(c.id), PoolSelector(c, product), PoolCards(Listed(c), product))
  }

  /** The cluster's name with the card type, or with the product. */
  function PoolName(c: Cluster, product: string, taken: set<string>): Option<string> {
    var gpuType := GpuType(Listed(c), product);
    var first := Take64(c.name + "-" + Lower(if gpuType == "" then product else gpuType));
    var second := Take64(c.name + "-" + StripDashes(Dashed(Lower(product))));
    if first !in taken then Some(first)
    else if second !in taken then Some(second)
    else None
  }

  function AddPools(c: Cluster, ms: seq<Machine>, products: seq<string>, taken: set<string>): Option<seq<Machine>> {
    if products == [] then Some([])
    else
      var front, p := products[..|products| - 1], products[|products| - 1];
      match AddPools(c, ms, front, taken)
      case None => None
      case Some(added) =>
        if ProductRegistered(c, ms, p) then Some(added)
        else
          match PoolName(c, p, taken + Names(added))
          case None => None
          case Some(name) => Some(added + [PoolMachine(c, p, name)])
  }

  /** Some of the product's nodes is a machine of its own. */
  predicate PartlyRegistered(c: Cluster, ms: seq<Machine>, product: string) {
    exists n :: n in Listed(c) && n.product == product && HostRegistered(c, ms, n.hostname)
  }

  function RegisterProducts(c: Cluster, ms: seq<Machine>, products: seq<string>): Outcome {
    if products == [] then Unprocessable
    else if exists p :: p in products && p !in Products(Listed(c)) then Unprocessable
    else if exists p :: p in products && PartlyRegistered(c, ms, p) && !ProductRegistered(c, ms, p) then Conflict
    else match AddPools(c, ms, Distinct(products), Names(ms))
      case None => Conflict
      case Some(added) => Added(added)
  }

  function RegisterNamespace(c: Cluster, ms: seq<Machine>): Outcome {
    if c.readable || c.quota.None? then Unprocessable
    else if exists m :: m in ms && Own(c, m) then Conflict
    else if c.name !in Names(ms) then
      if c.name == "" then Conflict else Added([Machine(c.name, Some(c.id), "", c.quota.value)])
    else if c.name + "-pool" !in Names(ms) then Added([Machine(c.name + "-pool", Some(c.id), "", c.quota.value)])
    else Conflict
  }

  datatype Call = Nodes(hosts: seq<string>) | Pools(products: seq<string>) | Namespace

  function Register(c: Cluster, ms: seq<Machine>, call: Call): Outcome {
    match call
    case Nodes(hosts) => RegisterNodes(c, ms, hosts)
    case Pools(products) => RegisterProducts(c, ms, products)
    case Namespace => RegisterNamespace(c, ms)
  }

  /** The machines after a call: a refused call changes none. */
  function After(c: Cluster, ms: seq<Machine>, call: Call): seq<Machine> {
    match Register(c, ms, call)
    case Added(more) => ms + more
    case _ => ms
  }

  // ---- What no card may suffer: to be counted twice ----

  /** A machine's pods can land on the node. */
  ghost predicate Covers(c: Cluster, m: Machine, n: Node) {
    Own(c, m) && (PinnedTo(c, m, n.hostname) || SpansProduct(c, m, n.product) || m.selector == "")
  }

  ghost predicate CoveredBy(c: Cluster, ms: seq<Machine>, n: Node) {
    exists m :: m in ms && Covers(c, m, n)
  }

  ghost predicate CoveredOnce(c: Cluster, ms: seq<Machine>, n: Node) {
    forall i, j :: 0 <= i < j < |ms| ==> !(Covers(c, ms[i], n) && Covers(c, ms[j], n))
  }

  ghost predicate NamesUnique(ms: seq<Machine>) {
    forall i, j :: 0 <= i < j < |ms| ==> ms[i].name != ms[j].name
  }

  /** The cards this cluster's machines are registered with. */
  ghost function Registered(c: Cluster, ms: seq<Machine>): nat {
    if ms == [] then 0
    else Registered(c, ms[..|ms| - 1]) + if Own(c, ms[|ms| - 1]) then ms[|ms| - 1].cards else 0
  }

  ghost function Cards(ns: seq<Node>): nat {
    if ns == [] then 0 else ns[0].cards + Cards(ns[1..])
  }

  /** The cards there are to register: the nodes', or what the quota allows. */
  ghost function Capacity(c: Cluster): nat {
    if c.readable then Cards(c.nodes) else if c.quota.Some? then c.quota.value else 0
  }

  /** No node is in two machines, no two machines share a name, and there are
      no more cards registered than there are. */
  ghost predicate CountedOnce(c: Cluster, ms: seq<Machine>) {
    && (forall n :: n in c.nodes ==> CoveredOnce(c, ms, n))
    && NamesUnique(ms)
    && Registered(c, ms) <= Capacity(c)
  }

  // ---- What a cluster looks like ----

  /** The characters of a Kubernetes label value. */
  ghost predicate LabelValue(s: string) {
    forall c :: c in s ==> 'a' <= c <= 'z' || 'A' <= c <= 'Z' || '0' <= c <= '9' || c == '-' || c == '_' || c == '.'
  }

  /** Nodes are told apart by a hostname, and the product label is another
      label than the hostname's. */
  ghost predicate WellFormed(c: Cluster) {
    && (forall i, j :: 0 <= i < j < |c.nodes| ==> c.nodes[i].hostname != c.nodes[j].hostname)
    && (forall n :: n in c.nodes ==> n.hostname != "" && LabelValue(n.hostname) && LabelValue(n.product))
    && c.productLabel != HOSTNAME_LABEL
    && (forall x :: x in c.productLabel ==> x != '=' && x != ',' && x != ' ')
  }

  lemma LabelFacts(s: string)
    requires LabelValue(s)
    ensures ' ' !in s && ',' !in s && '=' !in s && Trimmed(s)
  {
    if s != "" {
      var first, last := s[0], s[|s| - 1];
      assert first in s && last in s;
    }
  }

  /** A selector of one label selects by that label alone. */
  lemma OneLabel(key: string, value: string)
    requires '=' !in key && ',' !in key && LabelValue(value)
    ensures PinnedHostname(key + "=" + value) == if key == HOSTNAME_LABEL then value else ""
    ensures ' ' !in key ==> WithoutSpaces(key + "=" + value) == key + "=" + value
  {
    hide Strip, LabelValue, Trimmed;
    LabelFacts(value);
    var s := key + "=" + value;
    assert s == key + ['='] + value;
    FirstAfter(key, '=', value);
    assert ',' !in s;
    assert Split(s, ',') == [s];
    assert s[..|key|] == key && s[|key| + 1..] == value;
    assert Pairs([s][..0]) == map[];
    assert Pairs([s]) == map[key := value];
    assert Strip(value) == value;
  }

  lemma HostnameLabel()
    ensures '=' !in HOSTNAME_LABEL && ',' !in HOSTNAME_LABEL && ' ' !in HOSTNAME_LABEL
  {
  }

  lemma SelectorsApart(a: string, x: string, b: string, y: string)
    requires '=' !in a && '=' !in b
    ensures a + "=" + x == b + "=" + y <==> a == b && x == y
  {
    FirstAfter(a, '=', x);
    FirstAfter(b, '=', y);
    assert (a + "=" + x)[..|a|] == a && (b + "=" + y)[..|b|] == b;
    assert (a + "=" + x)[|a| + 1..] == x && (b + "=" + y)[|b| + 1..] == y;
    assert a + ['='] + x == a + "=" + x && b + ['='] + y == b + "=" + y;
  }

  /** A node's machine covers the nodes of that hostname, and no other. */
  lemma NodeMachineCovers(c: Cluster, n: Node, name: string, x: Node)
    requires WellFormed(c) && n in c.nodes && x in c.nodes
    ensures Covers(c, NodeMachine(c, n, name), x) <==> x.hostname == n.hostname
  {
    hide PinnedHostname, WithoutSpaces, LabelValue;
    HostnameLabel();
    OneLabel(HOSTNAME_LABEL, n.hostname);
    SelectorsApart(HOSTNAME_LABEL, n.hostname, c.productLabel, x.product);
  }

  /** A pool covers the nodes of its product, and no other. */
  lemma PoolMachineCovers(c: Cluster, product: string, name: string, x: Node)
    requires WellFormed(c) && product != "" && LabelValue(product) && x in c.nodes
    ensures Covers(c, PoolMachine(c, product, name), x) <==> x.product == product
  {
    hide PinnedHostname, WithoutSpaces, LabelValue;
    OneLabel(c.productLabel, product);
    SelectorsApart(c.productLabel, product, c.productLabel, x.product);
  }

  // ---- Cards, node by node ----

  /** The cards of the nodes some machine covers. */
  ghost function CoveredCards(c: Cluster, ms: seq<Machine>, ns: seq<Node>): nat {
    if ns == [] then 0
    else (if CoveredBy(c, ms, ns[0]) then ns[0].cards else 0) + CoveredCards(c, ms, ns[1..])
  }

  ghost function OwnCards(c: Cluster, m: Machine, ns: seq<Node>): nat {
    if ns == [] then 0
    else (if Covers(c, m, ns[0]) then ns[0].cards else 0) + OwnCards(c, m, ns[1..])
  }

  lemma CoveredByPlus(c: Cluster, ms: seq<Machine>, m: Machine, n: Node)
    ensures CoveredBy(c, ms + [m], n) <==> CoveredBy(c, ms, n) || Covers(c, m, n)
  {
    hide Covers;
    if CoveredBy(c, ms, n) {
      var x :| x in ms && Covers(c, x, n);
      assert x in ms + [m];
    }
    assert m in ms + [m];
  }

  /** A machine over nodes nobody covers adds exactly their cards. */
  lemma {:induction false} CoveredPlus(c: Cluster, ms: seq<Machine>, m: Machine, ns: seq<Node>)
    requires forall n :: n in ns && Covers(c, m, n) ==> !CoveredBy(c, ms, n)
    ensures CoveredCards(c, ms + [m], ns) == CoveredCards(c, ms, ns) + OwnCards(c, m, ns)
  {
    hide Covers, CoveredBy;
    if ns != [] {
      assert ns[0] in ns;
      CoveredByPlus(c, ms, m, ns[0]);
      CoveredPlus(c, ms, m, ns[1..]);
    }
  }

  lemma {:induction false} CoveredWithin(c: Cluster, ms: seq<Machine>, ns: seq<Node>)
    ensures CoveredCards(c, ms, ns) <= Cards(ns)
  {
    if ns != [] {
      CoveredWithin(c, ms, ns[1..]);
    }
  }

  lemma {:induction false} NodeWithinOwn(c: Cluster, m: Machine, ns: seq<Node>, n: Node)
    requires n in ns && Covers(c, m, n)
    ensures n.cards <= OwnCards(c, m, ns)
  {
    hide Covers;
    if ns[0] != n {
      NodeWithinOwn(c, m, ns[1..], n);
    }
  }

  lemma {:induction false} PoolWithinOwn(c: Cluster, m: Machine, ns: seq<Node>, product: string)
    requires forall n :: n in ns ==> (Covers(c, m, n) <==> n.product == product)
    ensures PoolCards(ns, product) <= OwnCards(c, m, ns)
  {
    hide Covers;
    if ns != [] {
      assert ns[0] in ns;
      PoolWithinOwn(c, m, ns[1..], product);
    }
  }

  // ---- The invariant of a cluster whose nodes can be listed ----

  ghost predicate Sound(c: Cluster, ms: seq<Machine>) {
    && (forall n :: n in c.nodes ==> CoveredOnce(c, ms, n))
    && NamesUnique(ms)
    && Registered(c, ms) <= CoveredCards(c, ms, c.nodes)
    && (forall m :: m in ms && Own(c, m) ==> m.selector != "")
  }

  lemma SoundIsCountedOnce(c: Cluster, ms: seq<Machine>)
    requires c.readable && Sound(c, ms)
    ensures CountedOnce(c, ms)
  {
    CoveredWithin(c, ms, c.nodes);
  }

  /** One more machine, under a new name, over nodes nobody covers. */
  ghost predicate Fits(c: Cluster, ms: seq<Machine>, m: Machine) {
    && m.name !in Names(ms)
    && (forall n :: n in c.nodes && Covers(c, m, n) ==> !CoveredBy(c, ms, n))
    && m.cards <= OwnCards(c, m, c.nodes)
    && m.selector != ""
  }

  lemma OnePlus(c: Cluster, ms: seq<Machine>, m: Machine, n: Node)
    requires CoveredOnce(c, ms, n) && (Covers(c, m, n) ==> !CoveredBy(c, ms, n))
    ensures CoveredOnce(c, ms + [m], n)
  {
    hide Covers;
    var all := ms + [m];
    forall i, j | 0 <= i < j < |all|
      ensures !(Covers(c, all[i], n) && Covers(c, all[j], n))
    {
      assert all[i] == ms[i] && all[i] in ms;
      assert j < |ms| ==> all[j] == ms[j];
    }
  }

  lemma SoundPlus(c: Cluster, ms: seq<Machine>, m: Machine)
    requires Sound(c, ms) && Fits(c, ms, m)
    ensures Sound(c, ms + [m])
  {
    hide Covers, CoveredBy, CoveredOnce;
    forall n | n in c.nodes
      ensures CoveredOnce(c, ms + [m], n)
    {
      OnePlus(c, ms, m, n);
    }
    CoveredPlus(c, ms, m, c.nodes);
    assert (ms + [m])[..|ms|] == ms;
    forall i, j | 0 <= i < j < |ms + [m]|
      ensures (ms + [m])[i].name != (ms + [m])[j].name
    {
      assert (ms + [m])[i] == ms[i] && ms[i] in ms;
    }
  }

  /** A listed node that is registered neither alone nor in its product's pool
      is covered by nothing. */
  lemma FreeNode(c: Cluster, ms: seq<Machine>, n: Node)
    requires forall m :: m in ms && Own(c, m) ==> m.selector != ""
    requires !HostRegistered(c, ms, n.hostname) && !ProductRegistered(c, ms, n.product)
    ensures !CoveredBy(c, ms, n)
  {
    hide PinnedHostname, WithoutSpaces, PoolSelector;
  }

  lemma NodeFits(c: Cluster, ms: seq<Machine>, n: Node, name: string)
    requires WellFormed(c) && n in c.nodes && name !in Names(ms)
    requires !CoveredBy(c, ms, n)
    ensures Fits(c, ms, NodeMachine(c, n, name))
  {
    hide Covers, CoveredBy, WellFormed;
    var m := NodeMachine(c, n, name);
    forall x | x in c.nodes
      ensures Covers(c, m, x) <==> x == n
    {
      NodeMachineCovers(c, n, name, x);
      HostsDiffer(c, x, n);
    }
    NodeWithinOwn(c, m, c.nodes, n);
  }

  lemma HostsDiffer(c: Cluster, x: Node, n: Node)
    requires WellFormed(c) && x in c.nodes && n in c.nodes
    ensures x.hostname == n.hostname <==> x == n
  {
  }

  lemma PoolFits(c: Cluster, ms: seq<Machine>, product: string, name: string)
    requires WellFormed(c) && c.readable && product in Products(c.nodes) && name !in Names(ms)
    requires forall n :: n in c.nodes && n.product == product ==> !CoveredBy(c, ms, n)
    ensures Fits(c, ms, PoolMachine(c, product, name))
  {
    hide Covers, CoveredBy;
    var m := PoolMachine(c, product, name);
    forall x | x in c.nodes
      ensures Covers(c, m, x) <==> x.product == product
    {
      PoolMachineCovers(c, product, name, x);
    }
    PoolWithinOwn(c, m, c.nodes, product);
  }

  // ---- Whole calls ----

  /** The machines of some of the hosts, and nothing else. */
  ghost predicate ForHosts(c: Cluster, added: seq<Machine>, hosts: seq<string>) {
    forall m :: m in added ==> ForHost(c, m, hosts)
  }

  ghost predicate ForHost(c: Cluster, m: Machine, hosts: seq<string>) {
    exists n :: n in c.nodes && n.hostname in hosts && m == NodeMachine(c, n, m.name)
  }

  lemma OtherHostsUncovered(c: Cluster, added: seq<Machine>, hosts: seq<string>, n: Node)
    requires WellFormed(c) && ForHosts(c, added, hosts) && n in c.nodes && n.hostname !in hosts
    ensures !CoveredBy(c, added, n)
  {
    hide Covers, WellFormed;
    forall m | m in added
      ensures !Covers(c, m, n)
    {
      assert ForHost(c, m, hosts);
      var x :| x in c.nodes && x.hostname in hosts && m == NodeMachine(c, x, m.name);
      NodeMachineCovers(c, x, m.name, n);
    }
  }

  lemma CoveredByConcat(c: Cluster, a: seq<Machine>, b: seq<Machine>, n: Node)
    ensures CoveredBy(c, a + b, n) <==> CoveredBy(c, a, n) || CoveredBy(c, b, n)
  {
    hide Covers;
    if CoveredBy(c, a, n) {
      var m :| m in a && Covers(c, m, n);
      assert m in a + b;
    }
    if CoveredBy(c, b, n) {
      var m :| m in b && Covers(c, m, n);
      assert m in a + b;
    }
  }

  lemma {:induction false} AddNodesSound(c: Cluster, ms: seq<Machine>, hosts: seq<string>)
    requires WellFormed(c) && c.readable && Sound(c, ms)
    requires forall i, j :: 0 <= i < j < |hosts| ==> hosts[i] != hosts[j]
    requires forall h :: h in hosts ==> NodeAt(Listed(c), h).Some?
    requires forall h :: h in hosts && !HostRegistered(c, ms, h) ==>
               !ProductRegistered(c, ms, NodeAt(Listed(c), h).value.product)
    ensures var r := AddNodes(c, ms, hosts, Names(ms));
            r.Some? ==> Sound(c, ms + r.value) && ForHosts(c, r.value, hosts)
    decreases |hosts|
  {
    hide WellFormed, CoveredBy, HostRegistered, ProductRegistered, NodeMachine, Fits, CoveredOnce;
    if hosts == [] {
      assert ms + [] == ms;
    } else {
      var front, h := hosts[..|hosts| - 1], hosts[|hosts| - 1];
      AddNodesSound(c, ms, front);
      var before := AddNodes(c, ms, front, Names(ms));
      if before.Some? {
        var added := before.value;
        WiderHosts(c, added, front, hosts);
        var n := NodeAt(Listed(c), h).value;
        var name := NodeName(c, n, Names(ms) + Names(added));
        if !HostRegistered(c, ms, h) && name.Some? {
          AddOneNode(c, ms, added, front, n, name.value);
          assert ms + (added + [NodeMachine(c, n, name.value)]) == ms + added + [NodeMachine(c, n, name.value)];
          assert ForHost(c, NodeMachine(c, n, name.value), hosts) by {
            MachineForHost(c, n, name.value, hosts);
          }
        }
      }
    }
  }

  lemma MachineForHost(c: Cluster, n: Node, name: string, hosts: seq<string>)
    requires n in c.nodes && n.hostname in hosts
    ensures ForHost(c, NodeMachine(c, n, name), hosts)
  {
  }

  lemma WiderHosts(c: Cluster, added: seq<Machine>, front: seq<string>, hosts: seq<string>)
    requires ForHosts(c, added, front) && forall h :: h in front ==> h in hosts
    ensures ForHosts(c, added, hosts)
  {
    forall m | m in added
      ensures ForHost(c, m, hosts)
    {
      assert ForHost(c, m, front);
    }
  }

  lemma AddOneNode(c: Cluster, ms: seq<Machine>, added: seq<Machine>, front: seq<string>, n: Node, name: string)
    requires WellFormed(c) && Sound(c, ms) && Sound(c, ms + added) && ForHosts(c, added, front)
    requires n in c.nodes && n.hostname !in front && name !in Names(ms) + Names(added)
    requires !HostRegistered(c, ms, n.hostname) && !ProductRegistered(c, ms, n.product)
    ensures Sound(c, ms + added + [NodeMachine(c, n, name)])
  {
    hide WellFormed, CoveredBy, HostRegistered, ProductRegistered, NodeMachine, Fits, CoveredOnce, ForHosts;
    FreeNode(c, ms, n);
    OtherHostsUncovered(c, added, front, n);
    CoveredByConcat(c, ms, added, n);
    NodeFits(c, ms + added, n, name);
    SoundPlus(c, ms + added, NodeMachine(c, n, name));
  }

  ghost predicate ForProducts(c: Cluster, added: seq<Machine>, products: seq<string>) {
    forall m :: m in added ==> ForProduct(c, m, products)
  }

  ghost predicate ForProduct(c: Cluster, m: Machine, products: seq<string>) {
    exists p :: p in products && p in Products(c.nodes) && m == PoolMachine(c, p, m.name)
  }

  lemma ProductValue(c: Cluster, p: string)
    requires WellFormed(c) && p in Products(c.nodes)
    ensures p != "" && LabelValue(p)
  {
  }

  lemma OtherProductsUncovered(c: Cluster, added: seq<Machine>, products: seq<string>, n: Node)
    requires WellFormed(c) && ForProducts(c, added, products) && n in c.nodes && n.product !in products
    ensures !CoveredBy(c, added, n)
  {
    hide Covers, WellFormed, PoolMachine, Products;
    forall m | m in added
      ensures !Covers(c, m, n)
    {
      assert ForProduct(c, m, products);
      var p :| p in products && p in Products(c.nodes) && m == PoolMachine(c, p, m.name);
      ProductValue(c, p);
      PoolMachineCovers(c, p, m.name, n);
    }
  }

  lemma MachineForProduct(c: Cluster, p: string, name: string, products: seq<string>)
    requires p in products && p in Products(c.nodes)
    ensures ForProduct(c, PoolMachine(c, p, name), products)
  {
  }

  lemma WiderProducts(c: Cluster, added: seq<Machine>, front: seq<string>, products: seq<string>)
    requires ForProducts(c, added, front) && forall p :: p in front ==> p in products
    ensures ForProducts(c, added, products)
  {
    forall m | m in added
      ensures ForProduct(c, m, products)
    {
      assert ForProduct(c, m, front);
    }
  }

  lemma AddOnePool(c: Cluster, ms: seq<Machine>, added: seq<Machine>, front: seq<string>, p: string, name: string)
    requires WellFormed(c) && c.readable && Sound(c, ms) && Sound(c, ms + added) && ForProducts(c, added, front)
    requires p in Products(c.nodes) && p !in front && name !in Names(ms) + Names(added)
    requires !ProductRegistered(c, ms, p) && !PartlyRegistered(c, ms, p)
    ensures Sound(c, ms + added + [PoolMachine(c, p, name)])
  {
    hide WellFormed, CoveredBy, HostRegistered, ProductRegistered, PoolMachine, Fits, CoveredOnce, ForProducts;
    forall n | n in c.nodes && n.product == p
      ensures !CoveredBy(c, ms + added, n)
    {
      FreeNode(c, ms, n);
      OtherProductsUncovered(c, added, front, n);
      CoveredByConcat(c, ms, added, n);
    }
    PoolFits(c, ms + added, p, name);
    SoundPlus(c, ms + added, PoolMachine(c, p, name));
  }

  lemma {:induction false} AddPoolsSound(c: Cluster, ms: seq<Machine>, products: seq<string>)
    requires WellFormed(c) && c.readable && Sound(c, ms)
    requires forall i, j :: 0 <= i < j < |products| ==> products[i] != products[j]
    requires forall p :: p in products ==> p in Products(c.nodes)
    requires forall p :: p in products && !ProductRegistered(c, ms, p) ==> !PartlyRegistered(c, ms, p)
    ensures var r := AddPools(c, ms, products, Names(ms));
            r.Some? ==> Sound(c, ms + r.value) && ForProducts(c, r.value, products)
    decreases |products|
  {
    hide WellFormed, ProductRegistered, PoolMachine, PoolName, Fits, CoveredOnce, PartlyRegistered, Products;
    if products == [] {
      assert ms + [] == ms;
    } else {
      var front, p := products[..|products| - 1], products[|products| - 1];
      AddPoolsSound(c, ms, front);
      var before := AddPools(c, ms, front, Names(ms));
      if before.Some? {
        var added := before.value;
        WiderProducts(c, added, front, products);
        var name := PoolName(c, p, Names(ms) + Names(added));
        if !ProductRegistered(c, ms, p) && name.Some? {
          PoolNameIsFree(c, p, Names(ms) + Names(added));
          AddOnePool(c, ms, added, front, p, name.value);
          assert ms + (added + [PoolMachine(c, p, name.value)]) == ms + added + [PoolMachine(c, p, name.value)];
          MachineForProduct(c, p, name.value, products);
        }
      }
    }
  }

  lemma PoolNameIsFree(c: Cluster, product: string, taken: set<string>)
    ensures PoolName(c, product, taken).Some? ==> PoolName(c, product, taken).value !in taken
  {
  }

  // ---- A cluster whose nodes cannot be listed ----

  /** At most one machine is this cluster's own, sized by the quota. */
  ghost predicate Lone(c: Cluster, ms: seq<Machine>) {
    && (forall i, j :: 0 <= i < j < |ms| ==> !(Own(c, ms[i]) && Own(c, ms[j])))
    && NamesUnique(ms)
    && Registered(c, ms) <= Capacity(c)
  }

  lemma {:induction false} NoneOwn(c: Cluster, ms: seq<Machine>)
    requires forall m :: m in ms ==> !Own(c, m)
    ensures Registered(c, ms) == 0
  {
    if ms != [] {
      assert ms[|ms| - 1] in ms;
      NoneOwn(c, ms[..|ms| - 1]);
    }
  }

  lemma LonePlus(c: Cluster, ms: seq<Machine>, m: Machine)
    requires Lone(c, ms) && (forall x :: x in ms ==> !Own(c, x)) && m.name !in Names(ms) && m.cards <= Capacity(c)
    ensures Lone(c, ms + [m])
  {
    NoneOwn(c, ms);
    var all := ms + [m];
    assert all[..|ms|] == ms;
    forall i, j | 0 <= i < j < |all|
      ensures !(Own(c, all[i]) && Own(c, all[j])) && all[i].name != all[j].name
    {
      assert all[i] == ms[i] && all[i] in ms;
    }
  }

  // ---- Every call, every sequence of calls ----

  ghost predicate Kept(c: Cluster, ms: seq<Machine>) {
    if c.readable then Sound(c, ms) else Lone(c, ms)
  }

  lemma NodesCallKeeps(c: Cluster, ms: seq<Machine>, hosts: seq<string>)
    requires WellFormed(c) && c.readable && Sound(c, ms)
    ensures Sound(c, After(c, ms, Nodes(hosts)))
  {
    hide WellFormed, Sound, HostRegistered, ProductRegistered, AddNodes, NodeAt;
    if RegisterNodes(c, ms, hosts).Added? {
      AddNodesSound(c, ms, Distinct(hosts));
    }
  }

  lemma PoolsCallKeeps(c: Cluster, ms: seq<Machine>, products: seq<string>)
    requires WellFormed(c) && c.readable && Sound(c, ms)
    ensures Sound(c, After(c, ms, Pools(products)))
  {
    hide WellFormed, Sound, ProductRegistered, PartlyRegistered, AddPools, Products;
    if RegisterProducts(c, ms, products).Added? {
      AddPoolsSound(c, ms, Distinct(products));
    }
  }

  lemma UnreadableCallKeeps(c: Cluster, ms: seq<Machine>, call: Call)
    requires !c.readable && Lone(c, ms)
    ensures Lone(c, After(c, ms, call))
  {
    hide Lone;
    match call {
      case Nodes(hosts) =>
        if hosts != [] {
          assert NodeAt(Listed(c), hosts[0]).None?;
        } else {
          assert Distinct(hosts) == [] && ms + [] == ms;
        }
      case Pools(products) =>
        if products != [] { assert products[0] !in Products(Listed(c)); }
      case Namespace =>
        var r := RegisterNamespace(c, ms);
        if r.Added? { LonePlus(c, ms, r.machines[0]); }
    }
  }

  lemma CallKeeps(c: Cluster, ms: seq<Machine>, call: Call)
    requires WellFormed(c) && Kept(c, ms)
    ensures Kept(c, After(c, ms, call))
  {
    hide WellFormed, Sound, Lone;
    if !c.readable {
      UnreadableCallKeeps(c, ms, call);
    } else {
      match call
      case Nodes(hosts) => NodesCallKeeps(c, ms, hosts);
      case Pools(products) => PoolsCallKeeps(c, ms, products);
      case Namespace =>
    }
  }

  lemma KeptIsCountedOnce(c: Cluster, ms: seq<Machine>)
    requires Kept(c, ms)
    ensures CountedOnce(c, ms)
  {
    hide Covers;
    if c.readable {
      SoundIsCountedOnce(c, ms);
    } else {
      forall n | n in c.nodes
        ensures CoveredOnce(c, ms, n)
      {
        forall i, j | 0 <= i < j < |ms|
          ensures !(Covers(c, ms[i], n) && Covers(c, ms[j], n))
        {
          CoversIsOwn(c, ms[i], n);
          CoversIsOwn(c, ms[j], n);
        }
      }
    }
  }

  lemma CoversIsOwn(c: Cluster, m: Machine, n: Node)
    ensures Covers(c, m, n) ==> Own(c, m)
  {
  }

  function AfterAll(c: Cluster, ms: seq<Machine>, calls: seq<Call>): seq<Machine>
    decreases |calls|
  {
    if calls == [] then ms else AfterAll(c, After(c, ms, calls[0]), calls[1..])
  }

  lemma {:induction false} CallsKeep(c: Cluster, ms: seq<Machine>, calls: seq<Call>)
    requires WellFormed(c) && Kept(c, ms)
    ensures Kept(c, AfterAll(c, ms, calls))
    decreases |calls|
  {
    hide WellFormed, Kept, After;
    if calls != [] {
      CallKeeps(c, ms, calls[0]);
      CallsKeep(c, After(c, ms, calls[0]), calls[1..]);
    }
  }

  lemma {:induction false} NothingRegistered(c: Cluster, ms: seq<Machine>)
    requires NamesUnique(ms) && forall m :: m in ms ==> !Own(c, m)
    ensures Kept(c, ms)
  {
    NoneOwn(c, ms);
  }

  /** No card is counted twice: over any sequence of node, pool and namespace
      registrations of a cluster that starts with no machine of its own, each
      node is in at most one machine, machine names stay unique, and no more
      cards are registered than the cluster has. */
  lemma NoCardCountedTwice(c: Cluster, ms: seq<Machine>, calls: seq<Call>)
    requires WellFormed(c) && NamesUnique(ms) && forall m :: m in ms ==> !Own(c, m)
    ensures CountedOnce(c, AfterAll(c, ms, calls))
  {
    NothingRegistered(c, ms);
    CallsKeep(c, ms, calls);
    KeptIsCountedOnce(c, AfterAll(c, ms, calls));
  }

  // ---- The handlers ----

  lemma NodesStep(c: Cluster, ms: seq<Machine>, hosts: seq<string>, i: nat)
    requires i < |hosts| && forall h :: h in hosts ==> NodeAt(Listed(c), h).Some?
    ensures var before := AddNodes(c, ms, hosts[..i], Names(ms));
            AddNodes(c, ms, hosts[..i + 1], Names(ms)) ==
              if before.None? then None
              else if HostRegistered(c, ms, hosts[i]) then before
              else
                var n := NodeAt(Listed(c), hosts[i]).value;
                match NodeName(c, n, Names(ms) + Names(before.value))
                case None => None
                case Some(name) => Some(before.value + [NodeMachine(c, n, name)])
  {
    hide NodeAt, HostRegistered, NodeName, NodeMachine;
    assert hosts[..i + 1][..i] == hosts[..i];
  }

  /** A name that cannot be had refuses the whole call. */
  lemma {:induction false} NodesFail(c: Cluster, ms: seq<Machine>, hosts: seq<string>, i: nat)
    requires forall h :: h in hosts ==> NodeAt(Listed(c), h).Some?
    requires i <= |hosts| && AddNodes(c, ms, hosts[..i], Names(ms)).None?
    ensures AddNodes(c, ms, hosts, Names(ms)).None?
    decreases |hosts| - i
  {
    hide AddNodes, NodeAt;
    if i < |hosts| {
      NodesStep(c, ms, hosts, i);
      NodesFail(c, ms, hosts, i + 1);
    } else {
      assert hosts[..i] == hosts;
    }
  }

  method BuildNodes(c: Cluster, ms: seq<Machine>, hosts: seq<string>) returns (r: Option<seq<Machine>>)
    requires forall h :: h in hosts ==> NodeAt(Listed(c), h).Some?
    ensures r == AddNodes(c, ms, hosts, Names(ms))
  {
    hide AddNodes, NodeAt, HostRegistered, NodeName, Names;
    var taken := Names(ms);
    var registered: seq<Machine> := [];
    NamesPlus(ms, registered);
    AddNothing(c, ms);
    var i := 0;
    assert hosts[..0] == [];
    while i < |hosts|
      invariant 0 <= i <= |hosts|
      invariant AddNodes(c, ms, hosts[..i], Names(ms)) == Some(registered)
      invariant taken == Names(ms) + Names(registered)
    {
      NodesStep(c, ms, hosts, i);
      if !HostRegistered(c, ms, hosts[i]) {
        var node := NodeAt(Listed(c), hosts[i]).value;
        var name := NodeName(c, node, taken);
        if name.None? {
          NodesFail(c, ms, hosts, i + 1);
          return None;
        }
        taken := taken + {name.value};
        NamesOneMore(registered, NodeMachine(c, node, name.value));
        registered := registered + [NodeMachine(c, node, name.value)];
      }
      i := i + 1;
    }
    assert hosts[..i] == hosts;
    r := Some(registered);
  }

  lemma NamesPlus(ms: seq<Machine>, none: seq<Machine>)
    requires none == []
    ensures Names(ms) == Names(ms) + Names(none)
  {
  }

  lemma NamesOneMore(ms: seq<Machine>, m: Machine)
    ensures Names(ms + [m]) == Names(ms) + {m.name}
  {
    forall x | x in Names(ms) + {m.name}
      ensures x in Names(ms + [m])
    {
      if x == m.name {
        assert m in ms + [m];
      } else {
        var y :| y in ms && y.name == x;
        assert y in ms + [m];
      }
    }
  }

  lemma AddNothing(c: Cluster, ms: seq<Machine>)
    ensures AddNodes(c, ms, [], Names(ms)) == Some([]) && AddPools(c, ms, [], Names(ms)) == Some([])
  {
  }

  lemma PoolsStep(c: Cluster, ms: seq<Machine>, products: seq<string>, i: nat)
    requires i < |products|
    ensures var before := AddPools(c, ms, products[..i], Names(ms));
            AddPools(c, ms, products[..i + 1], Names(ms)) ==
              if before.None? then None
              else if ProductRegistered(c, ms, products[i]) then before
              else
                match PoolName(c, products[i], Names(ms) + Names(before.value))
                case None => None
                case Some(name) => Some(before.value + [PoolMachine(c, products[i], name)])
  {
    hide ProductRegistered, PoolName, PoolMachine;
    assert products[..i + 1][..i] == products[..i];
  }

  lemma {:induction false} PoolsFail(c: Cluster, ms: seq<Machine>, products: seq<string>, i: nat)
    requires i <= |products| && AddPools(c, ms, products[..i], Names(ms)).None?
    ensures AddPools(c, ms, products, Names(ms)).None?
    decreases |products| - i
  {
    hide AddPools;
    if i < |products| {
      PoolsStep(c, ms, products, i);
      PoolsFail(c, ms, products, i + 1);
    } else {
      assert products[..i] == products;
    }
  }

  method BuildPools(c: Cluster, ms: seq<Machine>, products: seq<string>) returns (r: Option<seq<Machine>>)
    ensures r == AddPools(c, ms, products, Names(ms))
  {
    hide AddPools, ProductRegistered, PoolName, Names;
    var taken := Names(ms);
    var registered: seq<Machine> := [];
    NamesPlus(ms, registered);
    AddNothing(c, ms);
    var i := 0;
    assert products[..0] == [];
    while i < |products|
      invariant 0 <= i <= |products|
      invariant AddPools(c, ms, products[..i], Names(ms)) == Some(registered)
      invariant taken == Names(ms) + Names(registered)
    {
      PoolsStep(c, ms, products, i);
      if !ProductRegistered(c, ms, products[i]) {
        var name := PoolName(c, products[i], taken);
        if name.None? {
          PoolsFail(c, ms, products, i + 1);
          return None;
        }
        taken := taken + {name.value};
        NamesOneMore(registered, PoolMachine(c, products[i], name.value));
        registered := registered + [PoolMachine(c, products[i], name.value)];
      }
      i := i + 1;
    }
    assert products[..i] == products;
    r := Some(registered);
  }

  /** The names of the cluster's own machines. */
  method OwnNames(c: Cluster, ms: seq<Machine>) returns (names: seq<string>)
    ensures names == [] <==> forall m :: m in ms ==> !Own(c, m)
  {
    names := [];
    for i := 0 to |ms|
      invariant names == [] <==> forall m :: m in ms[..i] ==> !Own(c, m)
    {
      assert ms[..i + 1] == ms[..i] + [ms[i]];
      if Own(c, ms[i]) {
        names := names + [ms[i].name];
      }
    }
    assert ms[..|ms|] == ms;
  }

  /** The machine table, as the handlers of one cluster change it. */
  class Registry {
    const c: Cluster
    var machines: seq<Machine>

    constructor (c: Cluster, machines: seq<Machine>)
      ensures this.c == c && this.machines == machines
    {
      this.c, this.machines := c, machines;
    }

    method PostNodes(hosts: seq<string>) returns (r: Outcome)
      modifies this
      ensures r == Register(c, old(machines), Nodes(hosts))
      ensures machines == After(c, old(machines), Nodes(hosts))
    {
      hide NodeAt, HostRegistered, ProductRegistered, AddNodes;
      if exists h :: h in hosts && NodeAt(Listed(c), h).None? {
        return Unprocessable;
      }
      if exists h :: h in hosts && ProductRegistered(c, machines, NodeAt(Listed(c), h).value.product)
                     && !HostRegistered(c, machines, h) {
        return Conflict;
      }
      var registered := BuildNodes(c, machines, Distinct(hosts));
      if registered.None? {
        return Conflict;
      }
      machines := machines + registered.value;
      r := Added(registered.value);
    }

    method PostPools(products: seq<string>) returns (r: Outcome)
      modifies this
      ensures r == Register(c, old(machines), Pools(products))
      ensures machines == After(c, old(machines), Pools(products))
    {
      hide ProductRegistered, PartlyRegistered, AddPools, Products;
      if products == [] || exists p :: p in products && p !in Products(Listed(c)) {
        return Unprocessable;
      }
      if exists p :: p in products && PartlyRegistered(c, machines, p) && !ProductRegistered(c, machines, p) {
        return Conflict;
      }
      var registered := BuildPools(c, machines, Distinct(products));
      if registered.None? {
        return Conflict;
      }
      machines := machines + registered.value;
      r := Added(registered.value);
    }

    method PostNamespace() returns (r: Outcome)
      modifies this
      ensures r == Register(c, old(machines), Namespace)
      ensures machines == After(c, old(machines), Namespace)
    {
      if c.readable {
        return Unprocessable;
      }
      if c.quota.None? {
        return Unprocessable;
      }
      var others := OwnNames(c, machines);
      if others != [] {
        return Conflict;
      }
      var taken, name := Names(machines), "";
      if c.name !in taken {
        name := c.name;
      } else if c.name + "-pool" !in taken {
        name := c.name + "-pool";
      }
      if name == "" {
        return Conflict;
      }
      var pool := Machine(name, Some(c.id), "", c.quota.value);
      machines := machines + [pool];
      r := Added([pool]);
    }
  }
}
