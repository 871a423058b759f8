/** What a registration of nodes, pools or a namespace answers, and how large and
    how called the machines are that it adds (backend/app/api/clusters.py). */
module ClusterAnswers {
  import opened Text
  import opened ClusterPools

  // ---- How large a machine is, and that what was asked for is there ----

  /** The cards a machine's pods can have: those of the nodes it covers that
      take pods. */
  ghost function UsableCards(c: Cluster, m: Machine, ns: seq<Node>): nat {
    if ns == [] then 0
    else UsableCards(c, m, ns[1..]) + if Covers(c, m, ns[0]) && ns[0].takesPods then ns[0].cards else 0
  }

  lemma {:induction false} PoolIsUsable(c: Cluster, m: Machine, ns: seq<Node>, product: string)
    requires forall n :: n in ns ==> (Covers(c, m, n) <==> n.product == product)
    ensures PoolCards(ns, product) == UsableCards(c, m, ns)
  {
    hide Covers;
    if ns != [] {
      assert ns[0] in ns;
      PoolIsUsable(c, m, ns[1..], product);
    }
  }

  lemma OnePoolIsUsable(c: Cluster, product: string, name: string)
    requires WellFormed(c) && c.readable && product in Products(c.nodes)
    ensures var m := PoolMachine(c, product, name);
            Own(c, m) && m.cards == UsableCards(c, m, c.nodes)
  {
    hide Covers, WellFormed, Products;
    ProductValue(c, product);
    forall x | x in c.nodes
      ensures Covers(c, PoolMachine(c, product, name), x) <==> x.product == product
    {
      PoolMachineCovers(c, product, name, x);
    }
    PoolIsUsable(c, PoolMachine(c, product, name), c.nodes, product);
  }

  /** Every product asked for has its pool: one there was, or a new one. */
  lemma {:induction false} PoolsAreThere(c: Cluster, ms: seq<Machine>, products: seq<string>, n: Node)
    requires WellFormed(c) && c.readable && n in c.nodes && n.product != "" && n.product in products
    requires AddPools(c, ms, products, Names(ms)).Some?
    ensures CoveredBy(c, ms + AddPools(c, ms, products, Names(ms)).value, n)
    decreases |products|
  {
    hide WellFormed, Covers, PoolMachine, PoolName, Names;
    var front, p := products[..|products| - 1], products[|products| - 1];
    var before := AddPools(c, ms, front, Names(ms)).value;
    var added := AddPools(c, ms, products, Names(ms)).value;
    if p == n.product {
      if ProductRegistered(c, ms, p) {
        var m :| m in ms && SpansProduct(c, m, p);
        SpansIsCovers(c, m, n);
        assert m in ms + added;
      } else {
        var name := PoolName(c, p, Names(ms) + Names(before)).value;
        assert added == before + [PoolMachine(c, p, name)];
        NewPoolCovers(c, n, name);
        assert PoolMachine(c, p, name) in ms + added;
      }
    } else {
      PoolsAreThere(c, ms, front, n);
      var m :| m in ms + before && Covers(c, m, n);
      assert m in ms + added;
    }
  }

  lemma SpansIsCovers(c: Cluster, m: Machine, n: Node)
    requires SpansProduct(c, m, n.product)
    ensures Covers(c, m, n)
  {
  }

  lemma NewPoolCovers(c: Cluster, n: Node, name: string)
    requires WellFormed(c) && n in c.nodes && n.product != ""
    ensures Covers(c, PoolMachine(c, n.product, name), n)
  {
    hide Covers;
    assert n.product in Products(c.nodes);
    ProductValue(c, n.product);
    PoolMachineCovers(c, n.product, name, n);
  }

  /** A pool registration that is not refused: each new machine has the cards of
      the nodes it covers that take pods, and every node of a product asked for
      is in a machine. */
  lemma PoolsAsAsked(c: Cluster, ms: seq<Machine>, products: seq<string>)
    requires WellFormed(c) && c.readable && Sound(c, ms) && Register(c, ms, Pools(products)).Added?
    ensures var added := Register(c, ms, Pools(products)).machines;
            && After(c, ms, Pools(products)) == ms + added
            && (forall m :: m in added ==> Own(c, m) && m.cards == UsableCards(c, m, c.nodes))
            && (forall n :: n in c.nodes && n.product in products && n.product != "" ==> CoveredBy(c, ms + added, n))
  {
    hide WellFormed, Sound, ProductRegistered, PartlyRegistered, AddPools, Products, CoveredBy, PoolMachine;
    var added := Register(c, ms, Pools(products)).machines;
    AddPoolsSound(c, ms, Distinct(products));
    forall m | m in added ensures Own(c, m) && m.cards == UsableCards(c, m, c.nodes) {
      assert ForProduct(c, m, Distinct(products));
      var p :| p in Products(c.nodes) && m == PoolMachine(c, p, m.name);
      OnePoolIsUsable(c, p, m.name);
    }
    forall n | n in c.nodes && n.product in products && n.product != ""
      ensures CoveredBy(c, ms + added, n)
    {
      PoolsAreThere(c, ms, Distinct(products), n);
    }
  }

  /** Every host asked for has its machine: one there was, or a new one. */
  lemma {:induction false} NodesAreThere(c: Cluster, ms: seq<Machine>, hosts: seq<string>, n: Node)
    requires WellFormed(c) && c.readable && n in c.nodes && n.hostname in hosts
    requires forall h :: h in hosts ==> NodeAt(Listed(c), h).Some?
    requires AddNodes(c, ms, hosts, Names(ms)).Some?
    ensures CoveredBy(c, ms + AddNodes(c, ms, hosts, Names(ms)).value, n)
    decreases |hosts|
  {
    hide WellFormed, Covers, NodeMachine, NodeName, Names, NodeAt;
    var front, h := hosts[..|hosts| - 1], hosts[|hosts| - 1];
    var before := AddNodes(c, ms, front, Names(ms)).value;
    var added := AddNodes(c, ms, hosts, Names(ms)).value;
    if h == n.hostname {
      if HostRegistered(c, ms, h) {
        var m :| m in ms && PinnedTo(c, m, h);
        PinnedIsCovers(c, m, n);
        assert m in ms + added;
      } else {
        var x := NodeAt(Listed(c), h).value;
        var name := NodeName(c, x, Names(ms) + Names(before)).value;
        assert added == before + [NodeMachine(c, x, name)];
        NodeMachineCovers(c, x, name, n);
        assert NodeMachine(c, x, name) in ms + added;
      }
    } else {
      NodesAreThere(c, ms, front, n);
      var m :| m in ms + before && Covers(c, m, n);
      assert m in ms + added;
    }
  }

  lemma PinnedIsCovers(c: Cluster, m: Machine, n: Node)
    requires PinnedTo(c, m, n.hostname)
    ensures Covers(c, m, n)
  {
  }

  /** A node registration that is not refused: each new machine is one node's,
      with that node's cards, and every host asked for is in a machine. */
  lemma NodesAsAsked(c: Cluster, ms: seq<Machine>, hosts: seq<string>)
    requires WellFormed(c) && c.readable && Sound(c, ms) && Register(c, ms, Nodes(hosts)).Added?
    ensures var added := Register(c, ms, Nodes(hosts)).machines;
            && After(c, ms, Nodes(hosts)) == ms + added
            && (forall m :: m in added ==> OneNodes(c, m, hosts))
            && (forall n :: n in c.nodes && n.hostname in hosts ==> CoveredBy(c, ms + added, n))
  {
    hide WellFormed, Sound, HostRegistered, ProductRegistered, AddNodes, NodeAt, CoveredBy, NodeMachine, OneNodes;
    var added := Register(c, ms, Nodes(hosts)).machines;
    AddNodesSound(c, ms, Distinct(hosts));
    forall m | m in added ensures OneNodes(c, m, hosts) {
      assert ForHost(c, m, Distinct(hosts));
      var n :| n in c.nodes && n.hostname in Distinct(hosts) && m == NodeMachine(c, n, m.name);
      NodeMachineIsItsOwn(c, n, m.name, hosts);
    }
    forall n | n in c.nodes && n.hostname in hosts
      ensures CoveredBy(c, ms + added, n)
    {
      NodesAreThere(c, ms, Distinct(hosts), n);
    }
  }

  /** The machine covers one node, which was asked for, and has its cards. */
  ghost predicate OneNodes(c: Cluster, m: Machine, hosts: seq<string>) {
    exists n :: n in c.nodes && n.hostname in hosts && m.cards == n.cards
      && forall x :: x in c.nodes ==> (Covers(c, m, x) <==> x == n)
  }

  lemma NodeMachineIsItsOwn(c: Cluster, n: Node, name: string, hosts: seq<string>)
    requires WellFormed(c) && n in c.nodes && n.hostname in hosts
    ensures OneNodes(c, NodeMachine(c, n, name), hosts)
  {
    hide Covers, WellFormed;
    forall x | x in c.nodes ensures Covers(c, NodeMachine(c, n, name), x) <==> x == n {
      NodeMachineCovers(c, n, name, x);
      HostsDiffer(c, x, n);
    }
  }

  // ---- When a call is refused ----

  ghost predicate NoSuchHost(c: Cluster, h: string) {
    forall n :: n in c.nodes ==> n.hostname != h
  }

  ghost predicate NoSuchProduct(c: Cluster, p: string) {
    p == "" || forall n :: n in c.nodes ==> n.product != p
  }

  /** A pool covers the node, which has no machine of its own. */
  ghost predicate InAPool(c: Cluster, ms: seq<Machine>, n: Node) {
    CoveredBy(c, ms, n) && forall m :: m in ms ==> !PinnedTo(c, m, n.hostname)
  }

  /** A machine covers the node, and none its product. */
  ghost predicate OnItsOwn(c: Cluster, ms: seq<Machine>, n: Node) {
    CoveredBy(c, ms, n) && forall m :: m in ms ==> !SpansProduct(c, m, n.product)
  }

  lemma CoveredHow(c: Cluster, ms: seq<Machine>, n: Node)
    requires Sound(c, ms)
    ensures CoveredBy(c, ms, n) <==> HostRegistered(c, ms, n.hostname) || ProductRegistered(c, ms, n.product)
  {
    hide PinnedTo, SpansProduct;
    if HostRegistered(c, ms, n.hostname) {
      var m :| m in ms && PinnedTo(c, m, n.hostname);
      PinnedIsCovers(c, m, n);
    }
    if ProductRegistered(c, ms, n.product) {
      var m :| m in ms && SpansProduct(c, m, n.product);
      SpansIsCovers(c, m, n);
    }
  }

  /** Nodes are refused outright when one is not the cluster's, and as a
      conflict when a pool has the cards of one already. */
  lemma NodesRefused(c: Cluster, ms: seq<Machine>, hosts: seq<string>)
    requires WellFormed(c) && c.readable && Sound(c, ms)
    ensures Register(c, ms, Nodes(hosts)) == Unprocessable <==> exists h :: h in hosts && NoSuchHost(c, h)
    ensures (forall h :: h in hosts ==> !NoSuchHost(c, h)) ==>
      (exists n :: n in c.nodes && n.hostname in hosts && InAPool(c, ms, n)) ==>
      Register(c, ms, Nodes(hosts)) == Conflict
  {
    hide Sound, Covers, PinnedTo, SpansProduct, AddNodes;
    forall h | h in hosts ensures NodeAt(Listed(c), h).None? <==> NoSuchHost(c, h) {}
    if n :| n in c.nodes && n.hostname in hosts && InAPool(c, ms, n) {
      CoveredHow(c, ms, n);
      if NodeAt(Listed(c), n.hostname).Some? {
        HostsDiffer(c, n, NodeAt(Listed(c), n.hostname).value);
      }
    }
  }

  /** The nodes asked for that have no machine of their own yet can all keep
      their names. */
  ghost predicate NamesFree(c: Cluster, ms: seq<Machine>, hosts: seq<string>) {
    && (forall n :: n in c.nodes && n.hostname in hosts ==> |n.node| <= 64 && n.node !in Names(ms))
    && (forall n, x :: n in c.nodes && x in c.nodes && n.hostname in hosts && x.hostname in hosts && n != x ==>
         n.node != x.node)
  }

  ghost predicate NamedAsNodes(c: Cluster, added: seq<Machine>, hosts: seq<string>) {
    forall m :: m in added ==> exists n :: n in c.nodes && n.hostname in hosts && m == NodeMachine(c, n, n.node)
  }

  lemma {:induction false} FreeNamesAreTaken(c: Cluster, ms: seq<Machine>, all: seq<string>, k: nat)
    requires WellFormed(c) && c.readable && NamesFree(c, ms, all) && k <= |all|
    requires forall i, j :: 0 <= i < j < |all| ==> all[i] != all[j]
    requires forall h :: h in all ==> NodeAt(Listed(c), h).Some?
    ensures var r := AddNodes(c, ms, all[..k], Names(ms));
            r.Some? && NamedAsNodes(c, r.value, all[..k])
  {
    hide HostRegistered, NodeAt, Names, WellFormed, AddNodes, NamedAsNodes, NamesFree, NodeName;
    if k == 0 {
      AddNothing(c, ms);
      NoneNamed(c, all[..0]);
      assert all[..0] == [];
    } else {
      FreeNamesAreTaken(c, ms, all, k - 1);
      NodesStep(c, ms, all, k - 1);
      var h := all[k - 1];
      var n := NodeAt(Listed(c), h).value;
      var before := AddNodes(c, ms, all[..k - 1], Names(ms)).value;
      NameIsNew(c, ms, before, all, k - 1, n);
      KeepsName(c, ms, before, all, n);
      OneMoreNamed(c, before, all, k - 1, n);
    }
  }

  lemma NoneNamed(c: Cluster, hosts: seq<string>)
    ensures NamedAsNodes(c, [], hosts)
  {
  }

  lemma KeepsName(c: Cluster, ms: seq<Machine>, before: seq<Machine>, all: seq<string>, n: Node)
    requires NamesFree(c, ms, all) && n in c.nodes && n.hostname in all && n.node !in Names(before)
    ensures NodeName(c, n, Names(ms) + Names(before)) == Some(n.node)
  {
    hide Names;
  }

  lemma OneMoreNamed(c: Cluster, before: seq<Machine>, all: seq<string>, k: nat, n: Node)
    requires k < |all| && NamedAsNodes(c, before, all[..k]) && n in c.nodes && n.hostname == all[k]
    ensures NamedAsNodes(c, before, all[..k + 1]) && NamedAsNodes(c, before + [NodeMachine(c, n, n.node)], all[..k + 1])
  {
    hide NodeMachine;
    assert all[..k + 1] == all[..k] + [all[k]];
  }

  lemma NameIsNew(c: Cluster, ms: seq<Machine>, before: seq<Machine>, all: seq<string>, k: nat, n: Node)
    requires NamesFree(c, ms, all) && k < |all| && NamedAsNodes(c, before, all[..k])
    requires forall i, j :: 0 <= i < j < |all| ==> all[i] != all[j]
    requires n in c.nodes && n.hostname == all[k]
    ensures n.node !in Names(before)
  {
    assert n.hostname !in all[..k];
  }

  /** Nodes of the cluster that no pool has and whose names are free are all
      added, under their own names. */
  lemma NodesAdded(c: Cluster, ms: seq<Machine>, hosts: seq<string>)
    requires WellFormed(c) && c.readable && Sound(c, ms) && NamesFree(c, ms, hosts)
    requires forall h :: h in hosts ==> !NoSuchHost(c, h)
    requires forall n :: n in c.nodes && n.hostname in hosts ==> !InAPool(c, ms, n)
    ensures var r := Register(c, ms, Nodes(hosts));
            r.Added? && NamedAsNodes(c, r.machines, hosts)
  {
    hide Sound, PinnedTo, SpansProduct, AddNodes, NamedAsNodes, CoveredBy, Names, WellFormed;
    var all := Distinct(hosts);
    forall h | h in hosts
      ensures NodeAt(Listed(c), h).Some?
      ensures ProductRegistered(c, ms, NodeAt(Listed(c), h).value.product) ==> HostRegistered(c, ms, h)
    {
      var n := NodeAt(Listed(c), h).value;
      CoveredHow(c, ms, n);
    }
    FreeNamesAreTaken(c, ms, all, |all|);
    assert all[..|all|] == all;
    SameNames(c, AddNodes(c, ms, all, Names(ms)).value, all, hosts);
  }

  lemma SameNames(c: Cluster, added: seq<Machine>, all: seq<string>, hosts: seq<string>)
    requires NamedAsNodes(c, added, all) && forall h :: h in all <==> h in hosts
    ensures NamedAsNodes(c, added, hosts)
  {
  }

  /** Products are refused outright when none is named or one has no node, and
      as a conflict when a node of one has a machine of its own and the product
      no pool. */
  lemma PoolsRefused(c: Cluster, ms: seq<Machine>, products: seq<string>)
    requires WellFormed(c) && c.readable && Sound(c, ms)
    ensures Register(c, ms, Pools(products)) == Unprocessable <==>
      products == [] || exists p :: p in products && NoSuchProduct(c, p)
    ensures (forall p :: p in products ==> !NoSuchProduct(c, p)) ==>
      (exists n :: n in c.nodes && n.product in products && OnItsOwn(c, ms, n)) ==>
      Register(c, ms, Pools(products)) == Conflict
  {
    hide Sound, Covers, PinnedTo, SpansProduct, AddPools, CoveredBy, HostRegistered;
    forall p | p in products ensures p !in Products(Listed(c)) <==> NoSuchProduct(c, p) {
      assert p in Products(c.nodes) ==> exists n :: n in c.nodes && n.product == p;
    }
    if n :| n in c.nodes && n.product in products && OnItsOwn(c, ms, n) {
      CoveredHow(c, ms, n);
      assert PartlyRegistered(c, ms, n.product);
    }
  }

  lemma OneDistinct(x: string)
    ensures Distinct([x]) == [x]
  {
    assert [x][..0] == [];
  }

  /** The pool of one product: the one there is, or a new one. */
  lemma OnePool(c: Cluster, ms: seq<Machine>, p: string)
    ensures AddPools(c, ms, [p], Names(ms)) ==
      if ProductRegistered(c, ms, p) then Some([])
      else
        match PoolName(c, p, Names(ms))
        case None => None
        case Some(name) => Some([PoolMachine(c, p, name)])
  {
    hide AddPools, ProductRegistered, PoolName, PoolMachine, Names;
    AddNothing(c, ms);
    PoolsStep(c, ms, [p], 0);
    assert [p][..1] == [p] && [p][..0] == [];
    var none: seq<Machine> := [];
    NamesPlus(ms, none);
    assert forall m: Machine :: none + [m] == [m];
  }

  /** One product of the cluster, with no machine on its nodes, is added when
      either name for its pool is free. */
  lemma PoolAdded(c: Cluster, ms: seq<Machine>, p: string)
    requires WellFormed(c) && c.readable && Sound(c, ms) && !NoSuchProduct(c, p)
    requires forall n :: n in c.nodes && n.product == p ==> !CoveredBy(c, ms, n)
    ensures var r := Register(c, ms, Pools([p]));
            if PoolName(c, p, Names(ms)).None? then r == Conflict
            else r == Added([PoolMachine(c, p, PoolName(c, p, Names(ms)).value)])
  {
    hide Sound, CoveredBy, PoolName, Names, WellFormed, PoolMachine, AddPools, Distinct, HostRegistered;
    hide ProductRegistered, Products;
    PoolsRefused(c, ms, [p]);
    var n :| n in c.nodes && n.product == p;
    CoveredHow(c, ms, n);
    forall x | x in c.nodes && x.product == p ensures !HostRegistered(c, ms, x.hostname) {
      CoveredHow(c, ms, x);
    }
    OneDistinct(p);
    OnePool(c, ms, p);
    assert !PartlyRegistered(c, ms, p);
  }

  /** What is there already is not added again, whoever else is in the table. */
  lemma PoolSkipped(c: Cluster, ms: seq<Machine>, p: string)
    requires !NoSuchProduct(c, p) && c.readable && ProductRegistered(c, ms, p)
    ensures Register(c, ms, Pools([p])) == Added([])
  {
    hide ProductRegistered, PartlyRegistered, PoolName, PoolMachine, Names, AddPools, Distinct;
    var n :| n in c.nodes && n.product == p;
    assert p in Products(Listed(c));
    hide Products;
    OneDistinct(p);
    OnePool(c, ms, p);
  }

  lemma OneNodeThere(c: Cluster, ms: seq<Machine>, h: string)
    requires NodeAt(Listed(c), h).Some? && HostRegistered(c, ms, h)
    ensures AddNodes(c, ms, [h], Names(ms)) == Some([])
  {
    hide AddNodes, NodeAt, HostRegistered, Names, NodeName;
    AddNothing(c, ms);
    NodesStep(c, ms, [h], 0);
    assert [h][..1] == [h] && [h][..0] == [];
  }

  lemma NodeSkipped(c: Cluster, ms: seq<Machine>, h: string)
    requires c.readable && !NoSuchHost(c, h) && HostRegistered(c, ms, h)
    ensures Register(c, ms, Nodes([h])) == Added([])
  {
    hide HostRegistered, ProductRegistered, Names, AddNodes, Distinct;
    assert NodeAt(Listed(c), h).Some?;
    hide NodeAt;
    OneDistinct(h);
    OneNodeThere(c, ms, h);
    assert forall x :: x in [h] ==> x == h;
  }

  /** No machine that selects anything covers a node with neither a hostname nor
      a product. */
  lemma NamelessUncovered(c: Cluster, m: Machine, n: Node)
    requires m.selector != "" && n.hostname == "" && n.product == ""
    ensures !Covers(c, m, n)
  {
  }

  // ---- Names ----

  /** A node's machine is called as the node, or, when that is taken, as the node
      behind its cluster; there is no name when that one is too, or it has more
      than 64 characters. */
  lemma NodeNamed(c: Cluster, n: Node, taken: set<string>)
    ensures var r, full := NodeName(c, n, taken), c.name + ['-'] + n.node;
            && (n.node !in taken ==> r == if |n.node| >= 65 then None else Some(n.node))
            && (n.node in taken ==> r == if full in taken || |full| >= 65 then None else Some(full))
  {
  }

  /** The text up to 64 characters. */
  ghost predicate Shortened(s: string, r: string) {
    r <= s && (|s| <= 64 ==> r == s) && (|s| > 64 ==> |r| == 64)
  }

  /** The card type of the first node with the product. */
  ghost predicate FirstType(ns: seq<Node>, product: string, t: string) {
    (t == "" && forall n :: n in ns ==> n.product != product) ||
    exists i :: 0 <= i < |ns| && ns[i].product == product && ns[i].gpuType == t
      && forall j :: 0 <= j < i ==> ns[j].product != product
  }

  lemma {:induction false} GpuTypeIsFirst(ns: seq<Node>, product: string)
    ensures FirstType(ns, product, GpuType(ns, product))
  {
    if ns != [] && ns[0].product != product {
      GpuTypeIsFirst(ns[1..], product);
      var t := GpuType(ns, product);
      if i :| 0 <= i < |ns[1..]| && ns[1..][i].product == product && ns[1..][i].gpuType == t
                && forall j :: 0 <= j < i ==> ns[1..][j].product != product {
        forall j | 0 <= j < i + 1 ensures ns[j].product != product {
          assert j > 0 ==> ns[1..][j - 1] == ns[j];
        }
        assert ns[i + 1] == ns[1..][i];
      } else {
        forall n | n in ns ensures n.product != product {
          assert n == ns[0] || n in ns[1..];
        }
      }
    }
  }

  /** The product's own name for machines: each small letter and digit as it is,
      a dash for anything else, and no dash at either end. */
  ghost predicate SlugOf(text: string, r: string) {
    exists a: string, b: string, m: string ::
      && m == a + r + b && (forall x :: x in a || x in b ==> x == '-')
      && (r == "" || (r[0] != '-' && r[|r| - 1] != '-'))
      && |m| == |text| && forall i :: 0 <= i < |m| ==> DashedChar(text[i], m[i])
  }

  ghost predicate DashedChar(x: char, y: char) {
    if 'a' <= x <= 'z' || '0' <= x <= '9' then y == x else y == '-'
  }

  lemma {:induction false} StrippedOfDashes(s: string) returns (a: string, b: string)
    ensures s == a + StripDashes(s) + b && forall x :: x in a || x in b ==> x == '-'
    ensures var r := StripDashes(s); r == "" || (r[0] != '-' && r[|r| - 1] != '-')
    decreases |s|
  {
    if s != "" && s[0] == '-' {
      a, b := StrippedOfDashes(s[1..]);
      assert s == [s[0]] + (a + StripDashes(s) + b) == [s[0]] + a + StripDashes(s) + b;
      a := [s[0]] + a;
    } else if s != "" && s[|s| - 1] == '-' {
      a, b := StrippedOfDashes(s[..|s| - 1]);
      assert s == (a + StripDashes(s) + b) + [s[|s| - 1]] == a + StripDashes(s) + (b + [s[|s| - 1]]);
      b := b + [s[|s| - 1]];
    } else {
      a, b := "", "";
      assert s == "" + s + "";
    }
  }

  lemma DashedIs(s: string, i: nat)
    requires i < |s|
    ensures DashedChar(s[i], Dashed(s)[i])
  {
  }

  lemma Slugged(s: string)
    ensures SlugOf(s, StripDashes(Dashed(s)))
  {
    hide StripDashes, Dashed, DashedChar;
    var a, b := StrippedOfDashes(Dashed(s));
    forall i | 0 <= i < |s| ensures DashedChar(s[i], Dashed(s)[i]) {
      DashedIs(s, i);
    }
  }

  /** A pool is called as its cluster with its card type behind it, or its product
      when the type is not known, in small letters; when that is taken, with the
      product's own name for machines; always shortened. There is no name when
      both are taken. */
  lemma PoolNamed(c: Cluster, product: string, taken: set<string>)
    returns (t: string, slug: string, first: string, second: string)
    ensures FirstType(Listed(c), product, t) && SlugOf(Lower(product), slug)
    ensures Shortened(c.name + ['-'] + Lower(if t != "" then t else product), first)
    ensures Shortened(c.name + ['-'] + slug, second)
    ensures PoolName(c, product, taken) ==
      if first !in taken then Some(first) else if second !in taken then Some(second) else None
  {
    hide Lower, Dashed, StripDashes, GpuType;
    GpuTypeIsFirst(Listed(c), product);
    Slugged(Lower(product));
    t, slug := GpuType(Listed(c), product), StripDashes(Dashed(Lower(product)));
    hide FirstType, SlugOf;
    first := Take64(c.name + "-" + Lower(if t == "" then product else t));
    second := Take64(c.name + "-" + slug);
  }

  /** The cluster has no machine yet, and one of two names is free. */
  ghost predicate RoomForAll(c: Cluster, ms: seq<Machine>) {
    && (forall m :: m in ms ==> m.cluster != Some(c.id))
    && ((c.name !in Names(ms) && c.name != "") || (c.name in Names(ms) && c.name + "-pool" !in Names(ms)))
  }

  /** The whole namespace is one machine over whatever nodes there are, with the
      quota's cards, exactly when the nodes cannot be listed, the quota can be
      read, and there is room for it. */
  lemma NamespaceAdded(c: Cluster, ms: seq<Machine>)
    ensures var r := Register(c, ms, Namespace);
            && (r.Added? <==> !c.readable && c.quota.Some? && RoomForAll(c, ms))
            && (r == Unprocessable <==> c.readable || c.quota.None?)
            && (r.Added? ==> |r.machines| == 1)
            && (r.Added? ==> r.machines[0].cards == c.quota.value && r.machines[0].name !in Names(ms))
            && (r.Added? ==> forall n :: Covers(c, r.machines[0], n))
  {
    hide PinnedTo, SpansProduct, Names;
  }
}
