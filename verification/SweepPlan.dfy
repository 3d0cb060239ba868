// The allocation loop of scripts/sweep_plan.py: which node tests which driver versions.

module SweepPlan {

  /** A driver version, by its dotted name and the branch number it starts with. */
  datatype Version = Version(name: string, major: nat)

  /** An ABI boundary and the versions behind it, oldest first. */
  datatype Boundary = Boundary(profile: nat, versions: seq<Version>)

  datatype Pick = Pick(version: Version, profile: nat, novel: bool)

  datatype Node = Node(number: nat, arch: string, image: string, drivers: seq<Pick>)

  const GuestImages := ["noble", "jammy", "questing", "resolute"]

  // ---- the rules -----------------------------------------------------------------

  /** The versions of a boundary an architecture can run. */
  function Runnable(vs: seq<Version>, floor: nat): seq<Version> {
    if vs == [] then []
    else (if vs[0].major >= floor then [vs[0]] else []) + Runnable(vs[1..], floor)
  }

  function Unclaimed(vs: seq<Version>, taken: set<Version>): seq<Version> {
    if vs == [] then []
    else (if vs[0] !in taken then [vs[0]] else []) + Unclaimed(vs[1..], taken)
  }

  /** The boundaries an architecture can reach. */
  function Reachable(table: seq<Boundary>, floor: nat): seq<Boundary> {
    if table == [] then []
    else (if Runnable(table[0].versions, floor) != [] then [table[0]] else []) + Reachable(table[1..], floor)
  }

  function Versions(ps: seq<Pick>): set<Version> {
    set p | p in ps :: p.version
  }

  function FreshCount(ps: seq<Pick>): nat {
    if ps == [] then 0 else FreshCount(ps[..|ps| - 1]) + if ps[|ps| - 1].novel then 1 else 0
  }

  function Drivers(plan: seq<Node>): seq<Pick> {
    if plan == [] then [] else Drivers(plan[..|plan| - 1]) + plan[|plan| - 1].drivers
  }

  /** One driver of the boundary, never claimed before unless every one the node could run has been. */
  predicate Obeys(b: Boundary, floor: nat, taken: set<Version>, p: Pick) {
    && p.profile == b.profile
    && p.version in b.versions && p.version.major >= floor
    && (p.novel <==> p.version !in taken)
    && (!p.novel ==> forall v <- b.versions :: v.major >= floor ==> v in taken)
  }

  /** Each pick obeys its boundary, given what was taken before and what the node took since. */
  predicate PicksObey(bs: seq<Boundary>, floor: nat, taken: set<Version>, ps: seq<Pick>) {
    && |ps| <= |bs|
    && forall i :: 0 <= i < |ps| ==> Obeys(bs[i], floor, taken + Versions(ps[..i]), ps[i])
  }

  /** Exactly one driver for each boundary the architecture can reach, in order. */
  predicate NodeObeys(table: seq<Boundary>, floor: nat, taken: set<Version>, ps: seq<Pick>) {
    |ps| == |Reachable(table, floor)| && PicksObey(Reachable(table, floor), floor, taken, ps)
  }

  /** The books: what is taken, and how much of it is new. */
  predicate Balanced(used: set<Version>, ps: seq<Pick>, taken: set<Version>) {
    taken == used + Versions(ps) && |taken| == |used| + FreshCount(ps)
  }

  lemma {:induction false} RunnableIff(vs: seq<Version>, floor: nat, v: Version)
    ensures v in Runnable(vs, floor) <==> v in vs && v.major >= floor
  {
    if vs != [] {
      RunnableIff(vs[1..], floor, v);
    }
  }

  lemma {:induction false} UnclaimedIff(vs: seq<Version>, taken: set<Version>, v: Version)
    ensures v in Unclaimed(vs, taken) <==> v in vs && v !in taken
  {
    if vs != [] {
      UnclaimedIff(vs[1..], taken, v);
    }
  }

  lemma {:induction false} ReachableRunnable(table: seq<Boundary>, floor: nat)
    ensures forall b <- Reachable(table, floor) :: b in table && Runnable(b.versions, floor) != []
    ensures forall b <- table :: Runnable(b.versions, floor) != [] ==> b in Reachable(table, floor)
  {
    if table != [] {
      ReachableRunnable(table[1..], floor);
    }
  }

  lemma PicksObeySnoc(bs: seq<Boundary>, floor: nat, taken: set<Version>, ps: seq<Pick>, p: Pick)
    requires |ps| < |bs| && PicksObey(bs, floor, taken, ps)
    requires Obeys(bs[|ps|], floor, taken + Versions(ps), p)
    ensures PicksObey(bs, floor, taken, ps + [p])
  {
    forall i | 0 <= i <= |ps| ensures Obeys(bs[i], floor, taken + Versions((ps + [p])[..i]), (ps + [p])[i]) {
      assert (ps + [p])[..i] == ps[..i];
      assert ps[..|ps|] == ps;
    }
  }

  lemma BalancedSnoc(used: set<Version>, ps: seq<Pick>, taken: set<Version>, p: Pick)
    requires Balanced(used, ps, taken) && (p.novel <==> p.version !in taken)
    ensures Balanced(used, ps + [p], taken + {p.version})
  {
    assert Versions(ps + [p]) == Versions(ps) + {p.version};
    assert FreshCount(ps + [p]) == FreshCount(ps) + (if p.novel then 1 else 0) by {
      assert (ps + [p])[..|ps|] == ps;
    }
    assert |taken + {p.version}| == |taken| + (if p.novel then 1 else 0) by {
      if !p.novel {
        assert taken + {p.version} == taken;
      }
    }
  }

  // ---- the loops ------------------------------------------------------------------

  method Choose(b: Boundary, floor: nat, n: nat, taken: set<Version>) returns (p: Pick)
    requires Runnable(b.versions, floor) != []
    ensures Obeys(b, floor, taken, p)
    ensures var cands := Runnable(b.versions, floor);
            var free := Unclaimed(cands, taken);
            p.version == if free != [] then free[n % |free|] else cands[|cands| - 1]
  {
    var cands := Runnable(b.versions, floor);
    var free := Unclaimed(cands, taken);
    var v := if free != [] then free[n % |free|] else cands[|cands| - 1];
    p := Pick(v, b.profile, v in free);
    RunnableIff(b.versions, floor, v);
    UnclaimedIff(cands, taken, v);
    if free == [] {
      forall u <- b.versions | u.major >= floor ensures u in taken {
        RunnableIff(b.versions, floor, u);
        UnclaimedIff(cands, taken, u);
      }
    }
  }

  /** The drivers of one node. */
  method PlanNode(table: seq<Boundary>, floor: nat, n: nat, taken0: set<Version>)
    returns (drivers: seq<Pick>, taken: set<Version>)
    ensures NodeObeys(table, floor, taken0, drivers)
    ensures Balanced(taken0, drivers, taken)
  {
    var profiles := Reachable(table, floor);
    ReachableRunnable(table, floor);
    drivers, taken := [], taken0;
    var i := 0;
    while i < |profiles|
      invariant 0 <= i <= |profiles| && |drivers| == i
      invariant PicksObey(profiles, floor, taken0, drivers)
      invariant Balanced(taken0, drivers, taken)
    {
      var p := Choose(profiles[i], floor, n, taken);
      PicksObeySnoc(profiles, floor, taken0, drivers, p);
      BalancedSnoc(taken0, drivers, taken, p);
      taken := taken + {p.version};
      drivers := drivers + [p];
      i := i + 1;
    }
  }

  function FloorOf(floors: map<string, nat>, arch: string): nat {
    if arch in floors then floors[arch] else 0
  }

  /** Node `k` of the plan, judged against everything claimed before it. */
  predicate PlannedAt(table: seq<Boundary>, floors: map<string, nat>, arch: string, used: set<Version>,
                      plan: seq<Node>, k: nat)
    requires k < |plan|
  {
    && plan[k].number == k + 1
    && plan[k].arch == arch
    && plan[k].image == GuestImages[k % |GuestImages|]
    && NodeObeys(table, FloorOf(floors, arch), used + Versions(Drivers(plan[..k])), plan[k].drivers)
  }

  /** The architectures in node order: each as often as nodes were asked for. */
  function Hosts(arches: seq<string>, nodes: nat): seq<string> {
    if arches == [] then [] else Hosts(arches[..|arches| - 1], nodes) + seq(nodes, _ => arches[|arches| - 1])
  }

  /** Every node so far is the host's, and was planned by the rules. */
  predicate Planned(table: seq<Boundary>, floors: map<string, nat>, hosts: seq<string>, used: set<Version>,
                    plan: seq<Node>) {
    |plan| <= |hosts| && forall k :: 0 <= k < |plan| ==> PlannedAt(table, floors, hosts[k], used, plan, k)
  }

  lemma PlannedSnoc(table: seq<Boundary>, floors: map<string, nat>, hosts: seq<string>, used: set<Version>,
                    plan: seq<Node>, node: Node)
    requires |plan| < |hosts| && Planned(table, floors, hosts, used, plan)
    requires PlannedAt(table, floors, hosts[|plan|], used, plan + [node], |plan|)
    ensures Planned(table, floors, hosts, used, plan + [node])
  {
    forall k | 0 <= k < |plan| ensures PlannedAt(table, floors, hosts[k], used, plan + [node], k) {
      assert PlannedAt(table, floors, hosts[k], used, plan, k);
      assert (plan + [node])[..k] == plan[..k];
    }
  }

  lemma BooksSnoc(used: set<Version>, plan: seq<Node>, taken: set<Version>, node: Node, taken': set<Version>)
    requires Balanced(used, Drivers(plan), taken) && Balanced(taken, node.drivers, taken')
    ensures (plan + [node])[..|plan|] == plan
    ensures Balanced(used, Drivers(plan + [node]), taken')
  {
    assert (plan + [node])[..|plan|] == plan;
    CountsAppend(Drivers(plan), node.drivers);
  }

  lemma {:induction false} CountsAppend(a: seq<Pick>, b: seq<Pick>)
    ensures Versions(a + b) == Versions(a) + Versions(b)
    ensures FreshCount(a + b) == FreshCount(a) + FreshCount(b)
  {
    if b == [] {
      assert a + b == a;
    } else {
      var b' := b[..|b| - 1];
      assert (a + b)[..|a + b| - 1] == a + b';
      CountsAppend(a, b');
    }
  }

  /** The nodes of one architecture. */
  method PlanArch(table: seq<Boundary>, floors: map<string, nat>, arch: string, nodes: nat, ghost hosts: seq<string>,
                  ghost used: set<Version>, plan0: seq<Node>, taken0: set<Version>)
    returns (plan: seq<Node>, taken: set<Version>)
    requires Planned(table, floors, hosts, used, plan0) && Balanced(used, Drivers(plan0), taken0)
    requires |hosts| == |plan0| + nodes && forall k :: |plan0| <= k < |hosts| ==> hosts[k] == arch
    ensures |plan| == |hosts| && Planned(table, floors, hosts, used, plan) && Balanced(used, Drivers(plan), taken)
  {
    plan, taken := plan0, taken0;
    var n := 0;
    while n < nodes
      invariant 0 <= n <= nodes && |plan| == |plan0| + n
      invariant Planned(table, floors, hosts, used, plan) && Balanced(used, Drivers(plan), taken)
    {
      var drivers, taken' := PlanNode(table, FloorOf(floors, arch), n, taken);
      var node := Node(|plan| + 1, arch, GuestImages[|plan| % |GuestImages|], drivers);
      BooksSnoc(used, plan, taken, node, taken');
      PlannedSnoc(table, floors, hosts, used, plan, node);
      plan, taken := plan + [node], taken';
      n := n + 1;
    }
  }

  lemma HostsExtend(table: seq<Boundary>, floors: map<string, nat>, hosts: seq<string>, more: seq<string>,
                    used: set<Version>, plan: seq<Node>)
    requires Planned(table, floors, hosts, used, plan)
    ensures Planned(table, floors, hosts + more, used, plan)
  {}

  /**
   * The whole plan: for every table, floor, node count and set of versions already used, each node
   * has exactly one driver per reachable boundary, a version is picked twice only once its boundary
   * is exhausted for that node, and the versions newly claimed are counted by the novel picks.
   */
  method Plan(table: seq<Boundary>, floors: map<string, nat>, arches: seq<string>, nodes: nat, used: set<Version>)
    returns (plan: seq<Node>, taken: set<Version>)
    ensures |plan| == |Hosts(arches, nodes)| && Planned(table, floors, Hosts(arches, nodes), used, plan)
    ensures taken == used + Versions(Drivers(plan))
    ensures |taken - used| == FreshCount(Drivers(plan))
  {
    plan, taken := [], used;
    var a := 0;
    while a < |arches|
      invariant 0 <= a <= |arches|
      invariant |plan| == |Hosts(arches[..a], nodes)| && Planned(table, floors, Hosts(arches[..a], nodes), used, plan)
      invariant Balanced(used, Drivers(plan), taken)
    {
      assert arches[..a + 1][..a] == arches[..a];
      ghost var hosts := Hosts(arches[..a + 1], nodes);
      HostsExtend(table, floors, Hosts(arches[..a], nodes), seq(nodes, _ => arches[a]), used, plan);
      plan, taken := PlanArch(table, floors, arches[a], nodes, hosts, used, plan, taken);
      a := a + 1;
    }
    assert arches[..a] == arches;
    assert taken - used + used == taken;
  }
}
