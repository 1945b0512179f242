/** Where a model goes (internal/backend/kserve/fit.go, poolfit.go): the node among the
    candidates, and the pool whose node the autoscaler launches when no node takes it. */
module Placement {
  import opened Text

  // ------------------------------------------------------------ the node

  /** A candidate with its judged verdict; reserved is what running models hold there. */
  datatype Candidate = Candidate(budget: int, reserved: int, fits: bool)

  function Free(c: Candidate): int { c.budget - c.reserved }

  /** a is chosen over b, both fitting: the smaller budget, the more free among equals. */
  predicate Better(a: Candidate, b: Candidate) {
    a.budget < b.budget || (a.budget == b.budget && Free(a) > Free(b))
  }

  /** a has the smaller budget, or as small a one with more bytes free, or as many and comes no later. */
  ghost predicate IsSnug(a: Candidate, b: Candidate, before: bool) {
    || a.budget < b.budget
    || (a.budget == b.budget && (a.reserved < b.reserved || (a.reserved == b.reserved && before)))
  }

  /** a has more bytes free, or as many and comes no later. */
  ghost predicate IsRoomy(a: Candidate, b: Candidate, before: bool) {
    a.budget - a.reserved > b.budget - b.reserved || (a.budget - a.reserved == b.budget - b.reserved && before)
  }

  /** chooseNode: among the first of those nothing beats. */
  method ChooseNode(candidates: seq<Candidate>) returns (best: nat)
    requires candidates != []
    ensures best < |candidates|
    ensures (exists c :: c in candidates && c.fits) ==>
              candidates[best].fits && forall j :: 0 <= j < |candidates| && candidates[j].fits ==> IsSnug(candidates[best], candidates[j], best <= j)
    ensures (forall c :: c in candidates ==> !c.fits) ==>
              forall j :: 0 <= j < |candidates| ==> IsRoomy(candidates[best], candidates[j], best <= j)
  {
    var most, fit := 0, -1;
    for i := 0 to |candidates|
      invariant 0 <= most < |candidates| && (most < i || most == 0)
      invariant forall j :: 0 <= j < i ==>
                  Free(candidates[j]) <= Free(candidates[most]) && (j < most ==> Free(candidates[j]) < Free(candidates[most]))
      invariant -1 <= fit < i && (fit >= 0 ==> candidates[fit].fits)
      invariant fit < 0 ==> forall j :: 0 <= j < i ==> !candidates[j].fits
      invariant fit >= 0 ==> forall j :: 0 <= j < i && candidates[j].fits ==>
                  !Better(candidates[j], candidates[fit]) && (j < fit ==> Better(candidates[fit], candidates[j]))
    {
      if Free(candidates[i]) > Free(candidates[most]) { most := i; }
      if candidates[i].fits && (fit < 0 || Better(candidates[i], candidates[fit])) { fit := i; }
    }
    if fit < 0 { fit := most; }
    best := fit;
  }

  // ------------------------------------------------------------ the pool

  datatype Shape = Shape(instanceType: string, vcpu: int, memoryGiB: int, gpus: int, gpuMemoryGiB: int)

  datatype Node = Node(labels: map<string, string>, eligible: bool, allocatable: nat, gpuCount: nat, gpuMemory: nat, taken: nat)

  function Devices(n: Node): nat { if n.allocatable > 0 then n.allocatable else n.gpuCount }

  function FreeDevices(n: Node): nat {
    if n.gpuMemory > 0 && Devices(n) > 0 then (if Devices(n) > n.taken then Devices(n) - n.taken else 0) else Devices(n)
  }

  predicate Takes(n: Node, gpus: nat) { n.eligible && (Devices(n) == 0 || FreeDevices(n) >= gpus) }

  predicate Carries(n: Node, selector: map<string, string>) {
    forall k :: k in selector ==> k in n.labels && n.labels[k] == selector[k]
  }

  /** anyTakes over inPool. */
  predicate Taken(nodes: seq<Node>, selector: map<string, string>, gpus: nat) {
    exists n :: n in nodes && Carries(n, selector) && Takes(n, gpus)
  }

  const MACHINE_POOL := "giantswarm.io/machine-pool"

  type PoolName = s: string | s != "" witness "pool"
  type Pools = map<PoolName, seq<Shape>>

  /** The pool has no node that takes the predictor. */
  predicate Open(nodes: seq<Node>, name: PoolName, gpus: nat) { !Taken(nodes, map[MACHINE_POOL := name], gpus) }

  function OpenFor(nodes: seq<Node>, gpus: nat): PoolName -> bool { (name: PoolName) => Open(nodes, name, gpus) }

  /** smallerShape. */
  predicate Smaller(a: Shape, b: Shape) { if a.vcpu != b.vcpu then a.vcpu < b.vcpu else a.memoryGiB < b.memoryGiB }

  /** By vCPU, then memory. */
  ghost predicate AtMost(a: Shape, b: Shape) { a.vcpu < b.vcpu || (a.vcpu == b.vcpu && a.memoryGiB <= b.memoryGiB) }

  predicate Ascending(s: seq<Shape>) { forall i, j :: 0 <= i < j < |s| ==> !Smaller(s[j], s[i]) }

  /** A stable sort: what is not smaller than what is there goes behind it. */
  function Placed(s: seq<Shape>, x: Shape): seq<Shape> {
    if s != [] && Smaller(x, s[|s| - 1]) then Placed(s[..|s| - 1], x) + [s[|s| - 1]] else s + [x]
  }

  function SortedShapes(shapes: seq<Shape>): seq<Shape> {
    if shapes == [] then [] else Placed(SortedShapes(shapes[..|shapes| - 1]), shapes[|shapes| - 1])
  }

  lemma {:induction false} PlacedAscends(s: seq<Shape>, x: Shape)
    requires Ascending(s)
    ensures Ascending(Placed(s, x)) && |Placed(s, x)| == |s| + 1
    ensures forall y :: y in Placed(s, x) <==> y == x || y in s
  {
    if s != [] && Smaller(x, s[|s| - 1]) {
      var front := s[..|s| - 1];
      PlacedAscends(front, x);
      assert s == front + [s[|s| - 1]];
      forall i | 0 <= i < |s| ensures !Smaller(s[|s| - 1], Placed(front, x)[i]) {
        var y := Placed(front, x)[i];
        assert y in Placed(front, x);
        if y != x { var j :| 0 <= j < |front| && front[j] == y; assert s[j] == y; }
      }
    }
  }

  /** Sorted, and of the same shapes. */
  lemma {:induction false} SortedShapesSort(shapes: seq<Shape>)
    ensures Ascending(SortedShapes(shapes)) && |SortedShapes(shapes)| == |shapes|
    ensures forall y :: y in SortedShapes(shapes) <==> y in shapes
  {
    if shapes != [] {
      var front, x := shapes[..|shapes| - 1], shapes[|shapes| - 1];
      SortedShapesSort(front);
      PlacedAscends(SortedShapes(front), x);
      assert shapes == front + [x];
    }
  }

  /** shapes[k] is the last of the largest. */
  predicate LastLargest(shapes: seq<Shape>, k: nat) {
    k < |shapes| && forall j :: 0 <= j < |shapes| ==> !Smaller(shapes[k], shapes[j]) && (j > k ==> Smaller(shapes[j], shapes[k]))
  }

  lemma PlacedLast(s: seq<Shape>, x: Shape)
    requires Ascending(s)
    ensures |Placed(s, x)| == |s| + 1
    ensures Placed(s, x)[|s|] == if s != [] && Smaller(x, s[|s| - 1]) then s[|s| - 1] else x
  {
    PlacedAscends(s, x);
    if s != [] && Smaller(x, s[|s| - 1]) { PlacedAscends(s[..|s| - 1], x); }
  }

  lemma LastIsAmong(shapes: seq<Shape>) returns (j: nat)
    requires shapes != []
    ensures |SortedShapes(shapes)| == |shapes| && j < |shapes| && SortedShapes(shapes)[|shapes| - 1] == shapes[j]
  {
    SortedShapesSort(shapes);
    assert SortedShapes(shapes)[|shapes| - 1] in shapes;
    j :| 0 <= j < |shapes| && shapes[j] == SortedShapes(shapes)[|shapes| - 1];
  }

  /** The sort keeps the order of equals: its last is the last of the largest. */
  lemma {:induction false} LastIsTheLargest(shapes: seq<Shape>, k: nat)
    requires LastLargest(shapes, k)
    ensures |SortedShapes(shapes)| == |shapes| && SortedShapes(shapes)[|shapes| - 1] == shapes[k]
  {
    var n := |shapes| - 1;
    SortedShapesSort(shapes[..n]);
    PlacedLast(SortedShapes(shapes[..n]), shapes[n]);
    if k < n {
      LastIsTheLargest(shapes[..n], k);
    } else {
      NoneIsLarger(shapes, k);
    }
  }

  lemma NoneIsLarger(shapes: seq<Shape>, k: nat)
    requires LastLargest(shapes, k) && k == |shapes| - 1
    ensures var n := |shapes| - 1;
            |SortedShapes(shapes[..n])| == n && (n > 0 ==> !Smaller(shapes[n], SortedShapes(shapes[..n])[n - 1]))
  {
    var n := |shapes| - 1;
    SortedShapesSort(shapes[..n]);
    if n > 0 { var j := LastIsAmong(shapes[..n]); }
  }

  /** The size whose GPU memory closestPool compares: the last listed of those of most vCPUs and,
      among them, most memory. */
  lemma LargestMemoryIs(shapes: seq<Shape>) returns (k: nat)
    requires shapes != []
    ensures k < |shapes| && LargestMemory(shapes) == shapes[k].gpus * shapes[k].gpuMemoryGiB
    ensures forall j :: 0 <= j < |shapes| ==> AtMost(shapes[j], shapes[k])
    ensures forall j :: k < j < |shapes| ==> !AtMost(shapes[k], shapes[j])
  {
    k := TheLargest(shapes);
    LastIsTheLargest(shapes, k);
  }

  lemma {:induction false} TheLargest(shapes: seq<Shape>) returns (k: nat)
    requires shapes != []
    ensures LastLargest(shapes, k)
  {
    var n := |shapes| - 1;
    if n == 0 { return 0; }
    k := TheLargest(shapes[..n]);
    assert forall j :: 0 <= j < n ==> shapes[..n][j] == shapes[j];
    if !Smaller(shapes[n], shapes[k]) { k := n; }
  }

  /** A node takes the predictor when it is eligible and knows of no device, or of enough; the
      devices other models hold count where the GPUs have memory of their own. */
  ghost predicate HasRoom(n: Node, gpus: nat) {
    && n.eligible
    && (n.allocatable > 0 ==> gpus == 0 || gpus + (if n.gpuMemory > 0 then n.taken else 0) <= n.allocatable)
    && (n.allocatable == 0 && n.gpuCount > 0 ==> gpus == 0 || gpus + (if n.gpuMemory > 0 then n.taken else 0) <= n.gpuCount)
  }

  lemma TakenIs(nodes: seq<Node>, selector: map<string, string>, gpus: nat)
    ensures Taken(nodes, selector, gpus)
       <==> exists n :: n in nodes && HasRoom(n, gpus) && forall k :: k in selector ==> k in n.labels && n.labels[k] == selector[k]
  {
    forall n ensures Takes(n, gpus) <==> HasRoom(n, gpus) {}
    forall n ensures Carries(n, selector) <==> forall k :: k in selector ==> k in n.labels && n.labels[k] == selector[k] {}
  }

  /** A pool is open when none of the nodes labelled with it takes the predictor. */
  lemma OpenIs(nodes: seq<Node>, name: PoolName, gpus: nat)
    ensures OpenFor(nodes, gpus)(name) <==>
              forall n :: n in nodes && "giantswarm.io/machine-pool" in n.labels && n.labels["giantswarm.io/machine-pool"] == name ==>
                !HasRoom(n, gpus)
  {
    TakenIs(nodes, map[MACHINE_POOL := name], gpus);
    forall n: Node
      ensures (forall k :: k in map[MACHINE_POOL := name] ==> k in n.labels && n.labels[k] == map[MACHINE_POOL := name][k])
         <==> MACHINE_POOL in n.labels && n.labels[MACHINE_POOL] == name
    {
      assert MACHINE_POOL in map[MACHINE_POOL := name];
    }
  }

  datatype Launch = None | NeedsUnknown | PinningPool | Pool(name: PoolName)

  /** Every hosting size of an open pool has more vCPUs than shape, or as many and more memory, or
      as much of both and is of a pool not named before. */
  ghost predicate IsLeast(pools: Pools, open: PoolName -> bool, hosts: Shape -> bool, among: set<PoolName>,
                          name: PoolName, shape: Shape)
  {
    && name in pools && name in among && open(name) && shape in pools[name] && hosts(shape)
    && forall other: PoolName, s :: other in among && other in pools && open(other) && s in pools[other] && hosts(s) ==>
         || shape.vcpu < s.vcpu
         || (shape.vcpu == s.vcpu && shape.memoryGiB < s.memoryGiB)
         || (shape.vcpu == s.vcpu && shape.memoryGiB == s.memoryGiB && (other == name || Less(name, other)))
  }

  ghost predicate NoneHosts(pools: Pools, open: PoolName -> bool, hosts: Shape -> bool, among: set<PoolName>) {
    forall other: PoolName, s :: other in among && other in pools && open(other) && s in pools[other] ==> !hosts(s)
  }

  /** The largest size of an open pool carries no more GPU memory than memory, and strictly
      less in a pool named before. */
  ghost predicate IsClosest(pools: Pools, open: PoolName -> bool, among: set<PoolName>, name: PoolName) {
    && name in among && name in pools && pools[name] != [] && open(name)
    && forall other: PoolName :: other in among && other in pools && pools[other] != [] && open(other) ==>
         LargestMemory(pools[other]) < LargestMemory(pools[name])
         || (LargestMemory(pools[other]) == LargestMemory(pools[name]) && (other == name || Less(name, other)))
  }

  /** Some pool has sizes and no node that takes the predictor. */
  ghost predicate AnyLaunches(pools: Pools, open: PoolName -> bool) {
    exists n: PoolName :: n in pools && pools[n] != [] && open(n)
  }

  predicate Launches(pools: Pools, open: PoolName -> bool, name: PoolName) {
    name in pools && pools[name] != [] && open(name)
  }

  function LargestMemory(shapes: seq<Shape>): int
    requires shapes != []
  {
    SortedShapesSort(shapes);
    var largest := SortedShapes(shapes)[|shapes| - 1];
    largest.gpus * largest.gpuMemoryGiB
  }

  /** The first hosting size of the sorted ones. */
  method SmallestHosting(shapes: seq<Shape>, hosts: Shape -> bool) returns (found: bool, shape: Shape)
    ensures found <==> exists s :: s in shapes && hosts(s)
    ensures found ==> shape in shapes && hosts(shape) && forall s :: s in shapes && hosts(s) ==> AtMost(shape, s)
  {
    var sorted := SortedShapes(shapes);
    SortedShapesSort(shapes);
    shape := Shape("", 0, 0, 0, 0);
    for i := 0 to |sorted|
      invariant forall j :: 0 <= j < i ==> !hosts(sorted[j])
    {
      if hosts(sorted[i]) {
        assert sorted[i] in sorted;
        return true, sorted[i];
      }
    }
    found := false;
  }

  function Prefix(names: seq<PoolName>, i: nat): set<PoolName>
    requires i <= |names|
  {
    set n | n in names[..i]
  }

  /** The closest of some names, "" while none of them launches. */
  ghost predicate ClosestOf(pools: Pools, open: PoolName -> bool, among: set<PoolName>, best: string) {
    if best == "" then forall n: PoolName :: n in among ==> !Launches(pools, open, n) else IsClosest(pools, open, among, best)
  }

  lemma ClosestNext(pools: Pools, open: PoolName -> bool, among: set<PoolName>, best: string, name: PoolName)
    requires ClosestOf(pools, open, among, best) && forall n :: n in among ==> Less(n, name)
    ensures best != "" ==> best in pools && pools[best] != []
    ensures if Launches(pools, open, name) && (best == "" || LargestMemory(pools[name]) > LargestMemory(pools[best]))
            then ClosestOf(pools, open, among + {name}, name) else ClosestOf(pools, open, among + {name}, best)
  {
    assert Launches(pools, open, name) <==> name in pools && pools[name] != [] && open(name);
  }

  lemma AllNamesClosest(pools: Pools, open: PoolName -> bool, best: string)
    requires ClosestOf(pools, open, pools.Keys, best)
    ensures best == "" ==> !AnyLaunches(pools, open)
  {
    forall n: PoolName | n in pools && pools[n] != [] && open(n) ensures Launches(pools, open, n) {}
  }

  /** closestPool. */
  method ClosestPool(pools: Pools, names: seq<PoolName>, open: PoolName -> bool) returns (best: string)
    requires Sorted(names) && forall n :: n in names <==> n in pools
    ensures best == "" ==> !AnyLaunches(pools, open)
    ensures best != "" ==> IsClosest(pools, open, pools.Keys, best)
  {
    best := "";
    var bestMemory := 0;
    for i := 0 to |names|
      invariant ClosestOf(pools, open, Prefix(names, i), best)
      invariant best != "" ==> best in pools && pools[best] != [] && bestMemory == LargestMemory(pools[best])
    {
      assert names[..i + 1] == names[..i] + [names[i]];
      assert Prefix(names, i + 1) == Prefix(names, i) + {names[i]};
      assert forall n :: n in Prefix(names, i) ==> Less(n, names[i]);
      ClosestNext(pools, open, Prefix(names, i), best, names[i]);
      if Launches(pools, open, names[i]) {
        var memory := LargestMemory(pools[names[i]]);
        if best == "" || memory > bestMemory { best, bestMemory := names[i], memory; }
      }
    }
    assert names[..|names|] == names && Prefix(names, |names|) == pools.Keys;
    AllNamesClosest(pools, open, best);
  }

  /** The pool of the next name takes the place of the best only with a smaller size. */
  lemma LeastNext(pools: Pools, open: PoolName -> bool, hosts: Shape -> bool, among: set<PoolName>,
                  best: PoolName, shape: Shape, name: PoolName, found: bool, s: Shape)
    requires IsLeast(pools, open, hosts, among, best, shape)
    requires name in pools && open(name) && forall n :: n in among ==> Less(n, name)
    requires found <==> exists t :: t in pools[name] && hosts(t)
    requires found ==> s in pools[name] && hosts(s) && forall t :: t in pools[name] && hosts(t) ==> AtMost(s, t)
    ensures if found && Smaller(s, shape) then IsLeast(pools, open, hosts, among + {name}, name, s)
            else IsLeast(pools, open, hosts, among + {name}, best, shape)
  {
  }

  /** The best of some names, "" while none of them has a hosting size. */
  ghost predicate IsBest(pools: Pools, open: PoolName -> bool, hosts: Shape -> bool, among: set<PoolName>, best: string, shape: Shape) {
    if best == "" then NoneHosts(pools, open, hosts, among) else IsLeast(pools, open, hosts, among, best, shape)
  }

  lemma BestNext(pools: Pools, open: PoolName -> bool, hosts: Shape -> bool, among: set<PoolName>,
                 best: string, shape: Shape, name: PoolName, found: bool, s: Shape)
    requires IsBest(pools, open, hosts, among, best, shape) && name in pools && forall n :: n in among ==> Less(n, name)
    requires found ==> open(name) && s in pools[name] && hosts(s) && forall t :: t in pools[name] && hosts(t) ==> AtMost(s, t)
    requires !found ==> !open(name) || forall t :: t in pools[name] ==> !hosts(t)
    ensures if found && (best == "" || Smaller(s, shape)) then IsBest(pools, open, hosts, among + {name}, name, s)
            else IsBest(pools, open, hosts, among + {name}, best, shape)
  {
    if best != "" && open(name) { LeastNext(pools, open, hosts, among, best, shape, name, found, s); }
  }

  /** launchingPool's search: no name when no open pool has a hosting size. */
  method LeastPool(pools: Pools, names: seq<PoolName>, open: PoolName -> bool, hosts: Shape -> bool)
    returns (bestName: string, bestShape: Shape)
    requires Sorted(names) && forall n :: n in names <==> n in pools
    ensures bestName == "" ==> NoneHosts(pools, open, hosts, pools.Keys)
    ensures bestName != "" ==> IsLeast(pools, open, hosts, pools.Keys, bestName, bestShape)
  {
    bestName, bestShape := "", Shape("", 0, 0, 0, 0);
    for i := 0 to |names|
      invariant IsBest(pools, open, hosts, Prefix(names, i), bestName, bestShape)
    {
      var name := names[i];
      assert names[..i + 1] == names[..i] + [name];
      assert forall n :: n in Prefix(names, i) ==> Less(n, name);
      var found, s := false, bestShape;
      if open(name) { found, s := SmallestHosting(pools[name], hosts); }
      BestNext(pools, open, hosts, Prefix(names, i), bestName, bestShape, name, found, s);
      if found && (bestName == "" || Smaller(s, bestShape)) { bestName, bestShape := name, s; }
      assert Prefix(names, i + 1) == Prefix(names, i) + {name};
    }
    assert names[..|names|] == names;
  }

  /** launchingPool: pinning is the sizes and the selector of the pool every predictor is
      pinned to, with no selector when there is none; hosts is unknown when the preset's
      requests cannot be read. */
  method LaunchingPool(explicit: string, selector: map<string, string>, pinningShapes: seq<Shape>, pools: Pools,
                       nodes: seq<Node>, gpus: nat, needsKnown: bool, hosts: Shape -> bool)
    returns (r: Launch, ghost shape: Shape)
    ensures explicit != "" ==> r.None?
    ensures explicit == "" && selector != map[] ==>
              (r.PinningPool? <==> pinningShapes != [] && !Taken(nodes, selector, gpus)) && (r.PinningPool? || r.None?)
    ensures explicit == "" && selector == map[] && pools == map[] ==> r.None?
    ensures explicit == "" && selector == map[] && pools != map[] && !needsKnown ==> r.NeedsUnknown?
    ensures explicit == "" && selector == map[] && needsKnown && !NoneHosts(pools, OpenFor(nodes, gpus), hosts, pools.Keys) ==>
              r.Pool? && IsLeast(pools, OpenFor(nodes, gpus), hosts, pools.Keys, r.name, shape)
    ensures explicit == "" && selector == map[] && needsKnown && NoneHosts(pools, OpenFor(nodes, gpus), hosts, pools.Keys) ==>
              if AnyLaunches(pools, OpenFor(nodes, gpus))
              then r.Pool? && IsClosest(pools, OpenFor(nodes, gpus), pools.Keys, r.name)
              else r.None?
  {
    shape := Shape("", 0, 0, 0, 0);
    if explicit != "" { return None, shape; }
    if selector != map[] {
      return (if pinningShapes != [] && !Taken(nodes, selector, gpus) then PinningPool else None), shape;
    }
    if pools == map[] { return None, shape; }
    if !needsKnown { return NeedsUnknown, shape; }
    var open := OpenFor(nodes, gpus);
    var names := SortedKeys(pools.Keys);
    forall i | 0 <= i < |names| ensures names[i] != "" { assert names[i] in pools.Keys; }
    var bestName, bestShape := LeastPool(pools, names, open, hosts);
    if bestName == "" {
      bestName := ClosestPool(pools, names, open);
      if bestName == "" { return None, shape; }
    }
    return Pool(bestName), bestShape;
  }
}
