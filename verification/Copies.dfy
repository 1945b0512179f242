/** A model served as copies on several nodes (internal/backend/kserve/copies.go): the
    verdict of one copy on each, and the object that runs them. */
module Copies {
  import opened Basics
  import Names

  /** The fit verdict of one copy on one node. */
  datatype Verdict = Verdict(fits: bool, free: int, required: int, node: string, pool: string,
                             devices: int, tensorParallel: int, utilization: real, cpu: int, memory: int)

  function Room(v: Verdict): int { v.free - v.required }

  /** a leaves less room than b: a refusal before a fit, then the smaller room to spare. */
  predicate Tighter(a: Verdict, b: Verdict) {
    if a.fits != b.fits then !a.fits else Room(a) < Room(b)
  }

  predicate Tied(a: Verdict, b: Verdict) { !Tighter(a, b) && !Tighter(b, a) }

  lemma TighterIsAStrictWeakOrder(a: Verdict, b: Verdict, c: Verdict)
    ensures !Tighter(a, a)
    ensures Tighter(a, b) && Tighter(b, c) ==> Tighter(a, c)
    ensures Tied(a, b) && Tied(b, c) ==> Tied(a, c)
    ensures Tied(a, b) <==> a.fits == b.fits && Room(a) == Room(b)
  {
  }

  predicate SameClaim(claimOn: string -> string, nodes: seq<string>) {
    forall i :: 0 <= i < |nodes| ==> claimOn(nodes[i]) == claimOn(nodes[0])
  }

  /** No two of the nodes use another claim. */
  ghost predicate OneClaim(claimOn: string -> string, nodes: seq<string>) {
    forall n, m :: n in nodes && m in nodes ==> claimOn(n) == claimOn(m)
  }

  lemma SameIsOneClaim(claimOn: string -> string, nodes: seq<string>)
    ensures SameClaim(claimOn, nodes) <==> OneClaim(claimOn, nodes)
  {
    if SameClaim(claimOn, nodes) {
      forall n | n in nodes ensures claimOn(n) == claimOn(nodes[0]) { var i :| 0 <= i < |nodes| && nodes[i] == n; }
    }
  }

  /** Some two of the values differ. */
  ghost predicate Differ<T>(s: seq<T>) { exists i, j :: 0 <= i < j < |s| && s[i] != s[j] }

  function Shape(v: Verdict): (int, int) { (v.devices, v.tensorParallel) }

  /** each[t] is the first refusal of least room, or, without one, the first of least room. */
  ghost predicate IsTightest(each: seq<Verdict>, t: nat) {
    && t < |each|
    && ((exists v :: v in each && !v.fits) ==> !each[t].fits)
    && forall j :: 0 <= j < |each| && each[j].fits == each[t].fits ==>
         each[t].free - each[t].required < each[j].free - each[j].required
         || (each[t].free - each[t].required == each[j].free - each[j].required && t <= j)
  }

  lemma NoneIsTighter(each: seq<Verdict>, t: nat)
    requires t < |each|
    requires forall j :: 0 <= j < |each| ==> !Tighter(each[j], each[t]) && (j < t ==> Tighter(each[t], each[j]))
    ensures IsTightest(each, t)
  {
    forall v | v in each && !v.fits ensures !each[t].fits {
      var j :| 0 <= j < |each| && each[j] == v;
    }
  }

  ghost predicate IsLeast(s: seq<int>, m: int) { m in s && forall x :: x in s ==> m <= x }

  function Cpus(each: seq<Verdict>): seq<int> { seq(|each|, i requires 0 <= i < |each| => each[i].cpu) }
  function Memories(each: seq<Verdict>): seq<int> { seq(|each|, i requires 0 <= i < |each| => each[i].memory) }
  function Shapes(each: seq<Verdict>): seq<(int, int)> { seq(|each|, i requires 0 <= i < |each| => Shape(each[i])) }
  function Pools(each: seq<Verdict>): seq<string> { seq(|each|, i requires 0 <= i < |each| => each[i].pool) }

  /** The lowest of the utilizations some copy names, from the tightest's down. */
  ghost predicate IsLowest(each: seq<Verdict>, t: nat, u: real)
    requires t < |each|
  {
    && (u == each[t].utilization || exists i :: 0 <= i < |each| && 0.0 < each[i].utilization == u)
    && u <= each[t].utilization
    && forall i :: 0 <= i < |each| && each[i].utilization > 0.0 ==> u <= each[i].utilization
  }

  /** judgeCopies' first loop. */
  method Survey(each: seq<Verdict>) returns (tight: nat, onePool: bool, refusals: nat)
    requires each != []
    ensures IsTightest(each, tight)
    ensures onePool <==> !Differ(Pools(each))
    ensures refusals == 0 <==> forall v :: v in each ==> v.fits
  {
    var pools: set<string> := {};
    refusals, tight := 0, 0;
    for i := 0 to |each|
      invariant tight < |each| && (tight < i || tight == 0)
      invariant forall j :: 0 <= j < i ==> !Tighter(each[j], each[tight]) && (j < tight ==> Tighter(each[tight], each[j]))
      invariant refusals == 0 <==> forall j :: 0 <= j < i ==> each[j].fits
      invariant forall x :: x in pools <==> x in Pools(each)[..i]
    {
      assert Pools(each)[..i + 1] == Pools(each)[..i] + [each[i].pool];
      pools := pools + {each[i].pool};
      if !each[i].fits { refusals := refusals + 1; }
      if Tighter(each[i], each[tight]) { tight := i; }
    }
    NoneIsTighter(each, tight);
    assert Pools(each)[..|each|] == Pools(each);
    Values(Pools(each), pools);
    onePool := |pools| <= 1;
  }

  /** judgeCopies' second loop: what one pod template can ask of every node. */
  method Common(each: seq<Verdict>, tight: nat) returns (u: real, cpu: int, memory: int, oneShape: bool)
    requires tight < |each|
    ensures IsLowest(each, tight, u)
    ensures IsLeast(Cpus(each), cpu) && IsLeast(Memories(each), memory)
    ensures oneShape <==> !Differ(Shapes(each))
  {
    var shapes: set<(int, int)> := {};
    u, cpu, memory := each[tight].utilization, each[tight].cpu, each[tight].memory;
    assert Cpus(each)[tight] == cpu && Memories(each)[tight] == memory;
    for i := 0 to |each|
      invariant forall x :: x in shapes <==> x in Shapes(each)[..i]
      invariant u == each[tight].utilization || exists j :: 0 <= j < i && 0.0 < each[j].utilization == u
      invariant u <= each[tight].utilization
      invariant forall j :: 0 <= j < i && each[j].utilization > 0.0 ==> u <= each[j].utilization
      invariant cpu in Cpus(each) && forall j :: 0 <= j < i ==> cpu <= each[j].cpu
      invariant memory in Memories(each) && forall j :: 0 <= j < i ==> memory <= each[j].memory
    {
      assert Cpus(each)[i] == each[i].cpu && Memories(each)[i] == each[i].memory;
      assert Shapes(each)[..i + 1] == Shapes(each)[..i] + [Shape(each[i])];
      shapes := shapes + {Shape(each[i])};
      if each[i].utilization > 0.0 && each[i].utilization < u { u := each[i].utilization; }
      cpu := Min(cpu, each[i].cpu);
      memory := Min(memory, each[i].memory);
    }
    assert Shapes(each)[..|each|] == Shapes(each);
    Values(Shapes(each), shapes);
    oneShape := |shapes| <= 1;
  }

  /** judgeCopies. */
  method JudgeCopies(each: seq<Verdict>, nodes: seq<string>, claimOn: string -> string) returns (r: Verdict, tight: nat)
    requires |each| == |nodes| > 0
    ensures IsTightest(each, tight)
    ensures r.free == each[tight].free && r.required == each[tight].required
    ensures r.devices == each[tight].devices && r.tensorParallel == each[tight].tensorParallel
    ensures r.node == if each[tight].node != "" then each[tight].node else nodes[tight]
    ensures r.pool == if Differ(Pools(each)) then "" else each[tight].pool
    ensures r.fits <==> (forall v :: v in each ==> v.fits) && OneClaim(claimOn, nodes) && !Differ(Shapes(each))
    ensures IsLowest(each, tight, r.utilization)
    ensures IsLeast(Cpus(each), r.cpu) && IsLeast(Memories(each), r.memory)
  {
    var onePool, refusals;
    tight, onePool, refusals := Survey(each);
    r := each[tight];
    if r.node == "" { r := r.(node := nodes[tight]); }
    if !onePool { r := r.(pool := ""); }
    SameIsOneClaim(claimOn, nodes);
    var u, cpu, memory, oneShape := Common(each, tight);
    r := r.(utilization := u, cpu := cpu, memory := memory, fits := refusals == 0 && SameClaim(claimOn, nodes) && oneShape);
  }

  function Utilizations(each: seq<Verdict>): seq<real> { seq(|each|, i requires 0 <= i < |each| => each[i].utilization) }

  function Lowest(us: seq<real>): real
    requires us != []
  {
    if |us| == 1 then us[0]
    else
      var low := Lowest(us[..|us| - 1]);
      if us[|us| - 1] < low then us[|us| - 1] else low
  }

  lemma {:induction false} LowestIsLeast(us: seq<real>)
    requires us != []
    ensures Lowest(us) in us && forall u :: u in us ==> Lowest(us) <= u
  {
    assert us == us[..|us| - 1] + [us[|us| - 1]];
    if |us| > 1 { LowestIsLeast(us[..|us| - 1]); }
  }

  /** Where every copy names a utilization, or none does, the copies run at the lowest. */
  lemma LowestOfAll(each: seq<Verdict>, t: nat, u: real)
    requires t < |each| && IsLowest(each, t, u)
    requires (forall v :: v in each ==> v.utilization == 0.0) || (forall v :: v in each ==> v.utilization > 0.0)
    ensures u == Lowest(Utilizations(each))
  {
    var us := Utilizations(each);
    LowestIsLeast(us);
    assert us[t] in us && each[t] in each;
    assert forall i :: 0 <= i < |each| ==> each[i] in each && us[i] == each[i].utilization && us[i] in us;
    var k :| 0 <= k < |us| && us[k] == Lowest(us);
    assert each[k] in each;
  }

  /** More than one value is just two that differ. */
  lemma Values<T(!new)>(s: seq<T>, values: set<T>)
    requires forall x :: x in values <==> x in s
    ensures |values| > 1 <==> Differ(s)
  {
    forall i, j | 0 <= i < j < |s| && s[i] != s[j] ensures |values| > 1 {
      assert {s[i], s[j]} <= values;
      SubsetSize({s[i], s[j]}, values);
    }
    if !Differ(s) && s != [] {
      assert values == {s[0]};
    }
  }

  lemma {:induction false} SubsetSize<T>(a: set<T>, b: set<T>)
    requires a <= b
    ensures |a| <= |b|
  {
    if a != {} {
      var x :| x in a;
      SubsetSize(a - {x}, b - {x});
    }
  }

  // ------------------------------------------------------------ the object

  /** The asked nodes the object does not run on yet, each once, in the order they were asked. */
  function Missing(current: seq<string>, asked: seq<string>): seq<string> {
    if asked == [] then []
    else
      var before, last := Missing(current, asked[..|asked| - 1]), asked[|asked| - 1];
      if last in current + before then before else before + [last]
  }

  lemma {:induction false} MissingAreTheNew(current: seq<string>, asked: seq<string>)
    ensures forall n :: n in Missing(current, asked) <==> n in asked && n !in current
    ensures Distinct(Missing(current, asked))
    ensures Distinct(current) ==> Distinct(current + Missing(current, asked))
  {
    if asked != [] {
      MissingAreTheNew(current, asked[..|asked| - 1]);
      assert asked == asked[..|asked| - 1] + [asked[|asked| - 1]];
    }
    var added := Missing(current, asked);
    forall i, j | 0 <= i < j < |current + added| && Distinct(current) ensures (current + added)[i] != (current + added)[j] {
      if i < |current| <= j { assert current[i] in current && added[j - |current|] in added; }
    }
  }

  const PLACEMENT := "placement"
  const NODES := "nodes"
  const HOSTNAME := "kubernetes.io/hostname"

  /** strings.Join(nodes, ","). */
  function Joined(nodes: seq<string>): string {
    if nodes == [] then "" else if |nodes| == 1 then nodes[0] else nodes[0] + "," + Joined(nodes[1..])
  }

  /** strings.Split(s, ","). */
  function SplitAtCommas(s: string): (r: seq<string>)
    ensures r != []
  {
    if s == "" then [""]
    else if s[0] == ',' then [""] + SplitAtCommas(s[1..])
    else var rest := SplitAtCommas(s[1..]); [[s[0]] + rest[0]] + rest[1..]
  }

  function Recorded(parts: seq<string>): seq<string> {
    if parts == [] then []
    else (if Names.TrimSpace(parts[0]) == "" then [] else [Names.TrimSpace(parts[0])]) + Recorded(parts[1..])
  }

  /** A node's name: no comma and no space. */
  predicate IsNodeName(s: string) { s != "" && forall c :: c in s ==> c != ',' && !Names.Space(c) }

  /** An LLMInferenceService, as far as its copies go. */
  class Object {
    var replicas: int
    var nodeSelector: map<string, string>
    var affinity: seq<string>
    var annotations: map<string, string>

    constructor (replicas: int, nodeSelector: map<string, string>, affinity: seq<string>, annotations: map<string, string>)
      ensures this.replicas == replicas && this.nodeSelector == nodeSelector
      ensures this.affinity == affinity && this.annotations == annotations
    {
      this.replicas, this.nodeSelector, this.affinity, this.annotations := replicas, nodeSelector, affinity, annotations;
    }

    /** servedPlacement's nodes. */
    function Nodes(): seq<string>
      reads this
    {
      Recorded(SplitAtCommas(if NODES in annotations then annotations[NODES] else ""))
    }

    /** applyCopies. */
    method ApplyCopies(nodes: seq<string>)
      requires forall n :: n in nodes ==> IsNodeName(n)
      modifies this
      ensures replicas == |nodes| && affinity == nodes && HOSTNAME !in nodeSelector
      ensures PLACEMENT in annotations && annotations[PLACEMENT] == "copies" && Nodes() == nodes
      ensures nodeSelector == old(nodeSelector) - {HOSTNAME}
      ensures forall k :: k != PLACEMENT && k != NODES ==>
                (k in annotations <==> k in old(annotations)) && (k in annotations ==> annotations[k] == old(annotations[k]))
    {
      replicas := |nodes|;
      nodeSelector := nodeSelector - {HOSTNAME};
      affinity := nodes;
      annotations := annotations[PLACEMENT := "copies"][NODES := Joined(nodes)];
      JoinedIsRead(nodes);
    }
  }

  datatype Refusal = Admitted | OtherClaims

  /** addCopies: a copy of the object, its nodes the current ones and then the asked ones
      it does not run on; the object itself is left as it is. */
  method AddCopies(existing: Object, current: seq<string>, asked: seq<string>, claimOn: string -> string)
    returns (refusal: Refusal, obj: Object, nodes: seq<string>)
    requires forall n :: n in current + asked ==> IsNodeName(n)
    ensures refusal.Admitted? <==> OneClaim(claimOn, current + asked)
    ensures refusal.OtherClaims? ==> obj == existing && nodes == []
    ensures refusal.Admitted? ==> fresh(obj) && nodes == current + Missing(current, asked)
                                  && obj.replicas == |nodes| && obj.affinity == nodes && obj.Nodes() == nodes
                                  && PLACEMENT in obj.annotations && obj.annotations[PLACEMENT] == "copies"
                                  && obj.nodeSelector == existing.nodeSelector - {HOSTNAME}
    ensures refusal.Admitted? ==> forall k :: k != PLACEMENT && k != NODES ==>
              (k in obj.annotations <==> k in existing.annotations) && (k in obj.annotations ==> obj.annotations[k] == existing.annotations[k])
  {
    nodes := current;
    for i := 0 to |asked|
      invariant nodes == current + Missing(current, asked[..i])
    {
      assert asked[..i + 1][..i] == asked[..i];
      if asked[i] !in nodes { nodes := nodes + [asked[i]]; }
    }
    assert asked[..|asked|] == asked;
    MissingAreTheNew(current, asked);
    SameIsOneClaim(claimOn, nodes);
    assert forall n :: n in nodes <==> n in current + asked;
    if !SameClaim(claimOn, nodes) { return OtherClaims, existing, []; }
    obj := new Object(existing.replicas, existing.nodeSelector, existing.affinity, existing.annotations);
    obj.ApplyCopies(nodes);
    refusal := Admitted;
  }

  /** What is recorded on the object is read back. */
  lemma {:induction false} JoinedIsRead(nodes: seq<string>)
    requires forall n :: n in nodes ==> IsNodeName(n)
    ensures Recorded(SplitAtCommas(Joined(nodes))) == nodes
  {
    assert nodes != [] ==> nodes[0] in nodes;
    if |nodes| == 1 {
      SplitFree(nodes[0]);
      Untrimmed(nodes[0]);
      assert Recorded([nodes[0]]) == [nodes[0]] + Recorded([]);
    } else if |nodes| > 1 {
      JoinedIsRead(nodes[1..]);
      SplitHead(nodes[0], Joined(nodes[1..]));
      Untrimmed(nodes[0]);
      assert nodes == [nodes[0]] + nodes[1..];
    } else {
      assert Recorded([""]) == Recorded([]);
    }
  }

  lemma {:induction false} SplitFree(s: string)
    requires ',' !in s
    ensures SplitAtCommas(s) == [s]
  {
    if s != "" {
      SplitFree(s[1..]);
      assert [s[0]] + s[1..] == s;
    }
  }

  lemma {:induction false} SplitHead(s: string, rest: string)
    requires ',' !in s
    ensures SplitAtCommas(s + "," + rest) == [s] + SplitAtCommas(rest)
  {
    var whole := s + "," + rest;
    if s == "" {
      assert whole[1..] == rest;
    } else {
      SplitHead(s[1..], rest);
      assert whole[1..] == s[1..] + "," + rest && whole[0] == s[0];
      assert [s[0]] + s[1..] == s;
    }
  }

  lemma Untrimmed(s: string)
    requires IsNodeName(s)
    ensures Names.TrimSpace(s) == s
  {
    assert s[0] in s && s[|s| - 1] in s;
  }
}
