/** What running models hold of each node's budget, and the serves admitted against it
    (internal/backend/kserve/fit.go, copies.go, placement.go, backend.go). */
module Reservations {
  import opened Basics
  import opened Unified
  import C = Copies

  /** What a preset declares; pipeline: it runs pipeline parallel, so its shape is kept as written. */
  datatype Preset = Preset(gpus: bool, pipeline: bool, utilization: Fraction, weights: nat, overhead: nat, resident: Option<nat>)

  /** A served object: utilization is the one it was composed with, 0 for the preset's own. */
  datatype Served = Served(preset: string, nodes: seq<string>, split: bool, utilization: real, deleting: bool, gpus: nat)

  type Presets = map<string, Preset>
  type Nodes = map<string, Node>

  const UNKNOWN_NODE := Node(0, 0, 0, 0)

  function At(nodes: Nodes, n: string): Node { if n in nodes then nodes[n] else UNKNOWN_NODE }

  function CeilDiv(a: nat, b: nat): nat
    requires b > 0
  {
    (a + b - 1) / b
  }

  /** What vLLM claims on a node; 0 where the check does not apply. */
  function ClaimOn(p: Preset, n: Node, utilization: real): int {
    if !p.gpus || MemoryOf(n) == 0 then 0
    else Truncated(if utilization > 0.0 then utilization else p.utilization, MemoryOf(n))
  }

  /** presetShare. */
  function PresetShare(p: Preset, n: Node, parts: nat, utilization: real): int {
    Max(CeilDiv(p.weights, if parts > 1 then parts else 1) + p.overhead, ClaimOn(p, n, utilization))
  }

  function Parts(sv: Served): nat { if sv.split then |sv.nodes| else 1 }

  /** What an object holds on each of its nodes. */
  function ShareOn(presets: Presets, nodes: Nodes, sv: Served, n: string): int
    requires sv.preset in presets
  {
    PresetShare(presets[sv.preset], At(nodes, n), Parts(sv), sv.utilization)
  }

  /** share once for each time n is named. */
  function Times(on: seq<string>, n: string, share: int): int {
    if on == [] then 0 else Times(on[..|on| - 1], n, share) + if on[|on| - 1] == n then share else 0
  }

  /** What an object adds to a node: nothing while it stops or its preset is unknown. */
  function Adds(presets: Presets, nodes: Nodes, sv: Served, n: string): int {
    if sv.deleting || sv.preset !in presets then 0 else Times(sv.nodes, n, ShareOn(presets, nodes, sv, n))
  }

  predicate Is(loading: Option<string>, preset: string) { loading == Some(preset) }

  /** A sum over the objects; loading, the preset being loaded, is not counted against itself. */
  function Reserved(presets: Presets, nodes: Nodes, served: seq<Served>, loading: Option<string>, n: string): int {
    if served == [] then 0
    else
      var sv := served[|served| - 1];
      Reserved(presets, nodes, served[..|served| - 1], loading, n) + if Is(loading, sv.preset) then 0 else Adds(presets, nodes, sv, n)
  }

  /** What the preset being loaded holds itself. */
  function Own(presets: Presets, nodes: Nodes, served: seq<Served>, loading: Option<string>, n: string): int {
    if served == [] then 0
    else
      var sv := served[|served| - 1];
      Own(presets, nodes, served[..|served| - 1], loading, n) + if Is(loading, sv.preset) then Adds(presets, nodes, sv, n) else 0
  }

  function Devices(served: seq<Served>, loading: Option<string>, n: string): int {
    if served == [] then 0
    else
      var sv := served[|served| - 1];
      Devices(served[..|served| - 1], loading, n) +
      if sv.deleting || Is(loading, sv.preset) then 0 else Times(sv.nodes, n, sv.gpus)
  }

  lemma {:induction false} TimesOf(on: seq<string>, n: string, share: int)
    requires Distinct(on)
    ensures Times(on, n, share) == if n in on then share else 0
  {
    if on != [] {
      TimesOf(on[..|on| - 1], n, share);
      assert on == on[..|on| - 1] + [on[|on| - 1]];
    }
  }

  lemma ShareIsNatural(p: Preset, n: Node, parts: nat, utilization: real)
    ensures PresetShare(p, n, parts, utilization) >= 0
  {
  }

  lemma {:induction false} TimesNatural(on: seq<string>, n: string, share: nat)
    ensures Times(on, n, share) >= 0
  {
    if on != [] { TimesNatural(on[..|on| - 1], n, share); }
  }

  lemma {:induction false} NonNegative(presets: Presets, nodes: Nodes, served: seq<Served>, loading: Option<string>, n: string)
    ensures Reserved(presets, nodes, served, loading, n) >= 0
  {
    if served != [] {
      var sv := served[|served| - 1];
      NonNegative(presets, nodes, served[..|served| - 1], loading, n);
      if sv.preset in presets {
        ShareIsNatural(presets[sv.preset], At(nodes, n), Parts(sv), sv.utilization);
        TimesNatural(sv.nodes, n, ShareOn(presets, nodes, sv, n));
      }
    }
  }

  /** What a preset is not counted against itself for is what it holds. */
  lemma {:induction false} OwnAside(presets: Presets, nodes: Nodes, served: seq<Served>, loading: Option<string>, n: string)
    ensures Reserved(presets, nodes, served, loading, n) + Own(presets, nodes, served, loading, n)
            == Reserved(presets, nodes, served, None, n)
  {
    if served != [] { OwnAside(presets, nodes, served[..|served| - 1], loading, n); }
  }

  function Get(m: map<string, int>, n: string): int { if n in m then m[n] else 0 }

  /** for n in on { out[n] += share(n) }. */
  method AddOn(out: map<string, int>, on: seq<string>, share: string -> int) returns (r: map<string, int>)
    ensures forall n :: Get(r, n) == Get(out, n) + Times(on, n, share(n))
  {
    r := out;
    for i := 0 to |on|
      invariant forall n :: Get(r, n) == Get(out, n) + Times(on[..i], n, share(n))
    {
      assert on[..i + 1][..i] == on[..i];
      r := r[on[i] := Get(r, on[i]) + share(on[i])];
    }
    assert on[..|on|] == on;
  }

  /** reservedByNode. */
  method ReservedByNode(presets: Presets, nodes: Nodes, served: seq<Served>, loading: Option<string>)
    returns (out: map<string, int>, own: map<string, int>, taken: map<string, int>)
    requires loading.Some? ==> loading.value in presets
    ensures forall n :: Get(out, n) == Reserved(presets, nodes, served, loading, n)
    ensures forall n :: Get(own, n) == Own(presets, nodes, served, loading, n)
    ensures forall n :: Get(taken, n) == Devices(served, loading, n)
  {
    out, own, taken := map[], map[], map[];
    for i := 0 to |served|
      invariant forall n :: Get(out, n) == Reserved(presets, nodes, served[..i], loading, n)
      invariant forall n :: Get(own, n) == Own(presets, nodes, served[..i], loading, n)
      invariant forall n :: Get(taken, n) == Devices(served[..i], loading, n)
    {
      var sv := served[i];
      assert served[..i + 1][..i] == served[..i];
      if sv.nodes == [] || sv.deleting { continue; }
      if loading == Some(sv.preset) {
        own := AddOn(own, sv.nodes, n => ShareOn(presets, nodes, sv, n));
        continue;
      }
      taken := AddOn(taken, sv.nodes, n => sv.gpus);
      if sv.preset !in presets { continue; }
      out := AddOn(out, sv.nodes, n => ShareOn(presets, nodes, sv, n));
    }
    assert served[..|served|] == served;
  }

  // ------------------------------------------------------------ admission

  /** The budget part of judgeNode, and of judgeSplit for one of parts nodes. */
  function UnifiedOn(p: Preset, n: Node, headroom: nat, reserved: nat, sized: nat, parts: nat): Verdict
    requires parts > 0
  {
    var resident := match p.resident case Some(r) => r case None => sized;
    Sized(UnifiedClaimOn(p.gpus, p.utilization, n, headroom, reserved, CeilDiv(resident, parts) + p.overhead))
  }

  predicate Judged(p: Preset, n: Node, headroom: nat, reserved: nat, sized: nat, split: bool, parts: nat)
    requires parts > 0
  {
    var limit := if split then n.budget - reserved else Max(n.budget - reserved, 0);
    var uv := UnifiedOn(p, n, headroom, reserved, sized, parts);
    n.budget > 0 && CeilDiv(sized, parts) + p.overhead <= limit && (uv.Verdict? ==> uv.fits)
  }

  /** The utilization of the shape judged there: 0, the preset's own, where it keeps its reference shape. */
  function UtilizationOn(p: Preset, n: Node, headroom: nat, reserved: nat, sized: nat, parts: nat): real
    requires parts > 0
  {
    var uv := UnifiedOn(p, n, headroom, reserved, sized, parts);
    if !p.gpus || p.pipeline then 0.0 else if uv.Verdict? then uv.utilization else p.utilization
  }

  // ------------------------------------------------------------ the runs

  datatype Cluster = Cluster(presets: Presets, nodes: Nodes, headroom: nat)

  datatype Action =
    /** Serve with the weights sized at the hub; others says what else the nodes' verdicts were. */
    | Serve(preset: string, on: seq<string>, split: bool, sized: nat, others: bool, gpus: nat)
    | Stop(preset: string)
    | Gone(preset: string)

  /** What the fit check of preset counts as reserved on n. */
  function Others(c: Cluster, served: seq<Served>, preset: string, n: string): nat {
    NonNegative(c.presets, c.nodes, served, Some(preset), n);
    Reserved(c.presets, c.nodes, served, Some(preset), n)
  }

  /** The fit check of a serve: every node judged beside what the others reserve there. */
  predicate Admits(c: Cluster, served: seq<Served>, a: Action)
    requires a.Serve? && a.preset in c.presets
  {
    var parts := if a.split then |a.on| else 1;
    && a.on != [] && Distinct(a.on) && a.others
    && forall i :: 0 <= i < |a.on| ==>
         Judged(c.presets[a.preset], At(c.nodes, a.on[i]), c.headroom, Others(c, served, a.preset, a.on[i]), a.sized, a.split, parts)
  }

  function Find(served: seq<Served>, preset: string): Option<nat>
    ensures Find(served, preset).Some? ==> Find(served, preset).value < |served| && served[Find(served, preset).value].preset == preset
    ensures Find(served, preset).None? ==> forall sv :: sv in served ==> sv.preset != preset
  {
    if served == [] then None
    else if served[|served| - 1].preset == preset then Some(|served| - 1)
    else Find(served[..|served| - 1], preset)
  }

  function ComposedUtilization(c: Cluster, served: seq<Served>, a: Action): real
    requires a.Serve? && a.preset in c.presets && a.on != []
  {
    var parts := if a.split then |a.on| else 1;
    C.Lowest(seq(|a.on|, i requires 0 <= i < |a.on| =>
      UtilizationOn(c.presets[a.preset], At(c.nodes, a.on[i]), c.headroom, Others(c, served, a.preset, a.on[i]), a.sized, parts)))
  }

  function Step(c: Cluster, served: seq<Served>, a: Action): seq<Served> {
    match a
    case Serve(preset, on, split, sized, others, gpus) =>
      if preset !in c.presets || !Admits(c, served, a) then served
      else (
        match Find(served, preset)
        case None => served + [Served(preset, on, split, ComposedUtilization(c, served, a), false, gpus)]
        case Some(i) =>
          var sv := served[i];
          if sv.deleting || split || sv.split then served
          else served[i := sv.(nodes := sv.nodes + C.Missing(sv.nodes, on))])
    case Stop(preset) =>
      (match Find(served, preset) case None => served case Some(i) => served[i := served[i].(deleting := true)])
    case Gone(preset) =>
      (match Find(served, preset)
       case None => served
       case Some(i) => if served[i].deleting then served[..i] + served[i + 1..] else served)
  }

  // ------------------------------------------------------------ within the budgets

  /** One object a preset, of known presets, on distinct nodes. */
  ghost predicate WellFormed(c: Cluster, served: seq<Served>) {
    && (forall i, j :: 0 <= i < j < |served| ==> served[i].preset != served[j].preset)
    && (forall sv :: sv in served ==> sv.preset in c.presets && Distinct(sv.nodes))
  }

  function Counted(c: Cluster, served: seq<Served>, n: string): int { Reserved(c.presets, c.nodes, served, None, n) }

  /** What reservedByNode counts on each node is within its budget. */
  ghost predicate Within(c: Cluster, served: seq<Served>) {
    forall n :: Counted(c, served, n) <= Max(At(c.nodes, n).budget, 0)
  }

  /** The serve changes the cluster: a new object, or more nodes for one served as copies. */
  predicate Placed(c: Cluster, served: seq<Served>, a: Action) {
    a.Serve? && a.preset in c.presets && Admits(c, served, a) &&
    match Find(served, a.preset) case None => true case Some(i) => !served[i].deleting && !a.split && !served[i].split
  }

  function NewNodes(served: seq<Served>, a: Action): seq<string>
    requires a.Serve?
  {
    match Find(served, a.preset) case None => a.on case Some(i) => C.Missing(served[i].nodes, a.on)
  }

  /** The utilization the pods on the new nodes run at: an object that runs keeps its own. */
  function RunsAt(c: Cluster, served: seq<Served>, a: Action): real
    requires Placed(c, served, a)
  {
    match Find(served, a.preset) case None => ComposedUtilization(c, served, a) case Some(i) => served[i].utilization
  }

  function PartsOf(a: Action): nat
    requires a.Serve?
  {
    if a.split then |a.on| else 1
  }

  /** The fit answer's FreeBytes on a node. */
  function FreeBytes(c: Cluster, served: seq<Served>, preset: string, n: string): int {
    Max(At(c.nodes, n).budget - Others(c, served, preset, n), 0)
  }

  /** The pods do not run at the utilization they were judged at: copies added to an object
      run at its own, and a pipeline-parallel preset keeps its reference shape. */
  predicate RunsUnjudged(c: Cluster, served: seq<Served>, a: Action)
    requires a.Serve? && a.preset in c.presets
  {
    c.presets[a.preset].gpus && (Find(served, a.preset).Some? || c.presets[a.preset].pipeline)
  }

  /** The utilization such pods run at: the object's, else the preset's. */
  function OwnUtilization(c: Cluster, served: seq<Served>, a: Action): real
    requires a.Serve? && a.preset in c.presets
  {
    match Find(served, a.preset)
    case Some(i) => if served[i].utilization > 0.0 then served[i].utilization else c.presets[a.preset].utilization
    case None => c.presets[a.preset].utilization
  }

  /** Such pods, at that utilization, claim more of a new unified-memory node than the fit
      answer said is free. */
  predicate Overclaims(c: Cluster, served: seq<Served>, a: Action)
    requires a.Serve? && a.preset in c.presets
  {
    RunsUnjudged(c, served, a) &&
    exists n :: n in NewNodes(served, a) && MemoryOf(At(c.nodes, n)) > 0
      && Truncated(OwnUtilization(c, served, a), MemoryOf(At(c.nodes, n))) > FreeBytes(c, served, a.preset, n)
  }

  /** What vLLM will claim on each new node is free there. */
  ghost predicate ClaimsAreFree(c: Cluster, served: seq<Served>, a: Action)
    requires Placed(c, served, a)
  {
    forall n :: n in NewNodes(served, a) ==>
      ClaimOn(c.presets[a.preset], At(c.nodes, n), RunsAt(c, served, a)) <= At(c.nodes, n).budget - Counted(c, served, n)
  }

  lemma {:induction false} ReservedUpdate(c: Cluster, served: seq<Served>, i: nat, sv: Served, n: string)
    requires i < |served|
    ensures Counted(c, served[i := sv], n) == Counted(c, served, n) - Adds(c.presets, c.nodes, served[i], n) + Adds(c.presets, c.nodes, sv, n)
  {
    var last := |served| - 1;
    if i < last {
      ReservedUpdate(c, served[..last], i, sv, n);
      assert served[i := sv][..last] == served[..last][i := sv];
    } else {
      assert served[i := sv][..last] == served[..last];
    }
  }

  lemma {:induction false} ReservedRemove(c: Cluster, served: seq<Served>, i: nat, n: string)
    requires i < |served|
    ensures Counted(c, served[..i] + served[i + 1..], n) == Counted(c, served, n) - Adds(c.presets, c.nodes, served[i], n)
  {
    var last := |served| - 1;
    var left := served[..i] + served[i + 1..];
    if i < last {
      ReservedRemove(c, served[..last], i, n);
      assert left[..last - 1] == served[..last][..i] + served[..last][i + 1..];
    } else {
      assert left == served[..last];
    }
  }

  lemma AddsNatural(c: Cluster, sv: Served, n: string)
    ensures Adds(c.presets, c.nodes, sv, n) >= 0
  {
    if sv.preset in c.presets {
      ShareIsNatural(c.presets[sv.preset], At(c.nodes, n), Parts(sv), sv.utilization);
      TimesNatural(sv.nodes, n, ShareOn(c.presets, c.nodes, sv, n));
    }
  }

  /** A placed serve adds one share on each new node, and nothing elsewhere. */
  lemma PlacedAdds(c: Cluster, served: seq<Served>, a: Action, n: string)
    requires WellFormed(c, served) && Placed(c, served, a)
    ensures Counted(c, Step(c, served, a), n) == Counted(c, served, n) +
              if n in NewNodes(served, a) then PresetShare(c.presets[a.preset], At(c.nodes, n), PartsOf(a), RunsAt(c, served, a)) else 0
  {
    match Find(served, a.preset)
    case None =>
      var sv := Served(a.preset, a.on, a.split, ComposedUtilization(c, served, a), false, a.gpus);
      assert (served + [sv])[..|served|] == served;
      TimesOf(a.on, n, ShareOn(c.presets, c.nodes, sv, n));
    case Some(i) =>
      var sv := served[i];
      var wider := sv.(nodes := sv.nodes + C.Missing(sv.nodes, a.on));
      assert sv in served;
      C.MissingAreTheNew(sv.nodes, a.on);
      ReservedUpdate(c, served, i, wider, n);
      TimesOf(sv.nodes, n, ShareOn(c.presets, c.nodes, sv, n));
      TimesOf(wider.nodes, n, ShareOn(c.presets, c.nodes, sv, n));
  }

  lemma {:induction false} OwnNothing(c: Cluster, served: seq<Served>, preset: string, n: string)
    requires forall sv :: sv in served ==> Distinct(sv.nodes) && (sv.preset == preset ==> n !in sv.nodes)
    ensures Own(c.presets, c.nodes, served, Some(preset), n) == 0
  {
    if served != [] {
      var sv := served[|served| - 1];
      OwnNothing(c, served[..|served| - 1], preset, n);
      if sv.preset in c.presets { TimesOf(sv.nodes, n, ShareOn(c.presets, c.nodes, sv, n)); }
    }
  }

  /** On a new node the fit check counted everything. */
  lemma JudgedBesideAll(c: Cluster, served: seq<Served>, a: Action, n: string)
    requires WellFormed(c, served) && Placed(c, served, a) && n in NewNodes(served, a)
    ensures n in a.on && Others(c, served, a.preset, n) == Counted(c, served, n)
    ensures Judged(c.presets[a.preset], At(c.nodes, n), c.headroom, Others(c, served, a.preset, n), a.sized, a.split, PartsOf(a))
  {
    match Find(served, a.preset) {
      case None =>
      case Some(i) =>
        C.MissingAreTheNew(served[i].nodes, a.on);
        assert forall j :: 0 <= j < |served| && served[j].preset == a.preset ==> j == i;
    }
    OwnNothing(c, served, a.preset, n);
    OwnAside(c.presets, c.nodes, served, Some(a.preset), n);
    var k :| 0 <= k < |a.on| && a.on[k] == n;
  }

  lemma Quotient(n: nat, d: nat)
    requires d > 0
    ensures n / d * d <= n < (n / d + 1) * d
  {
    assert n == n / d * d + n % d;
  }

  lemma LessTimes(y: nat, x: nat, d: nat)
    ensures y < x ==> (y + 1) * d <= x * d
  {
    if y < x { assert x * d == (y + 1) * d + (x - y - 1) * d; }
  }

  lemma CeilDivMonotone(a: nat, b: nat, d: nat)
    requires a <= b && d > 0
    ensures CeilDiv(a, d) <= CeilDiv(b, d)
  {
    Quotient(a + d - 1, d);
    Quotient(b + d - 1, d);
    LessTimes(CeilDiv(b, d), CeilDiv(a, d), d);
  }

  /** A placed serve on one node. */
  lemma FreeClaimOnNode(c: Cluster, served: seq<Served>, a: Action, n: string)
    requires WellFormed(c, served) && Within(c, served) && Placed(c, served, a)
    requires c.presets[a.preset].weights <= a.sized
    ensures var next := Step(c, served, a);
            && (n !in NewNodes(served, a) ==> Counted(c, next, n) == Counted(c, served, n))
            && (n in NewNodes(served, a) ==>
                  (Counted(c, next, n) <= Max(At(c.nodes, n).budget, 0)
                   <==> ClaimOn(c.presets[a.preset], At(c.nodes, n), RunsAt(c, served, a)) <= At(c.nodes, n).budget - Counted(c, served, n)))
  {
    PlacedAdds(c, served, a, n);
    if n in NewNodes(served, a) {
      JudgedBesideAll(c, served, a, n);
      CeilDivMonotone(c.presets[a.preset].weights, a.sized, PartsOf(a));
      assert Counted(c, served, n) <= Max(At(c.nodes, n).budget, 0);
    }
  }

  lemma FreeClaimsKeepBudgets(c: Cluster, served: seq<Served>, a: Action)
    requires WellFormed(c, served) && Within(c, served) && Placed(c, served, a)
    requires c.presets[a.preset].weights <= a.sized
    ensures Within(c, Step(c, served, a)) <==> ClaimsAreFree(c, served, a)
  {
    var p, next := c.presets[a.preset], Step(c, served, a);
    forall n
      ensures n !in NewNodes(served, a) ==> Counted(c, next, n) == Counted(c, served, n)
      ensures n in NewNodes(served, a) ==>
                (Counted(c, next, n) <= Max(At(c.nodes, n).budget, 0)
                 <==> ClaimOn(p, At(c.nodes, n), RunsAt(c, served, a)) <= At(c.nodes, n).budget - Counted(c, served, n))
    {
      FreeClaimOnNode(c, served, a, n);
    }
  }

  lemma StepStaysWellFormed(c: Cluster, served: seq<Served>, a: Action)
    requires WellFormed(c, served)
    ensures WellFormed(c, Step(c, served, a))
  {
    match Find(served, a.preset)
    case None =>
    case Some(i) =>
      assert served[i] in served;
      if a.Serve? { C.MissingAreTheNew(served[i].nodes, a.on); }
      var next := Step(c, served, a);
      if a.Gone? && served[i].deleting {
        assert forall k {:trigger next[k]} :: 0 <= k < |next| ==> next[k] == served[if k < i then k else k + 1];
      } else {
        assert |next| == |served| && forall k {:trigger next[k]} :: 0 <= k < |next| ==>
                 next[k].preset == served[k].preset && (k != i ==> next[k] == served[k]);
        assert Distinct(next[i].nodes);
      }
  }

  /** Stopping frees and takes nothing. */
  lemma OtherStepsKeepBudgets(c: Cluster, served: seq<Served>, a: Action)
    requires Within(c, served) && !Placed(c, served, a)
    ensures Within(c, Step(c, served, a))
  {
    var next := Step(c, served, a);
    forall n ensures Counted(c, next, n) <= Counted(c, served, n) {
      match Find(served, a.preset)
      case None =>
      case Some(i) =>
        AddsNatural(c, served[i], n);
        ReservedUpdate(c, served, i, served[i].(deleting := true), n);
        ReservedRemove(c, served, i, n);
    }
  }

  // ------------------------------------------------------------ which serves

  /** A preset new to the cluster runs at what it was judged at, unless it keeps its
      reference shape: a pipeline-parallel one runs at its own utilization. */
  lemma NewServesAreFree(c: Cluster, served: seq<Served>, a: Action)
    requires WellFormed(c, served) && Within(c, served) && Placed(c, served, a) && Find(served, a.preset).None?
    requires !(c.presets[a.preset].gpus && c.presets[a.preset].pipeline)
    ensures ClaimsAreFree(c, served, a)
  {
    var p := c.presets[a.preset];
    var us := seq(|a.on|, i requires 0 <= i < |a.on| =>
      UtilizationOn(p, At(c.nodes, a.on[i]), c.headroom, Others(c, served, a.preset, a.on[i]), a.sized, PartsOf(a)));
    assert ComposedUtilization(c, served, a) == C.Lowest(us);
    C.LowestIsLeast(us);
    forall n | n in NewNodes(served, a)
      ensures ClaimOn(p, At(c.nodes, n), C.Lowest(us)) <= At(c.nodes, n).budget - Counted(c, served, n)
    {
      JudgedBesideAll(c, served, a, n);
      var k :| 0 <= k < |a.on| && a.on[k] == n;
      assert us[k] in us;
      var low :| 0 <= low < |us| && us[low] == C.Lowest(us);
      if p.gpus { JudgedIsPositive(p, At(c.nodes, a.on[low]), c.headroom, Others(c, served, a.preset, a.on[low]), a.sized, a.split, PartsOf(a)); }
      assert Counted(c, served, n) <= Max(At(c.nodes, n).budget, 0);
      LowerClaimsAreFree(p, At(c.nodes, n), c.headroom, Others(c, served, a.preset, n), a.sized, a.split, PartsOf(a), C.Lowest(us));
    }
  }

  lemma JudgedIsPositive(p: Preset, n: Node, headroom: nat, reserved: nat, sized: nat, split: bool, parts: nat)
    requires parts > 0 && Judged(p, n, headroom, reserved, sized, split, parts) && p.gpus && !p.pipeline
    ensures UtilizationOn(p, n, headroom, reserved, sized, parts) > 0.0
  {
    var need := CeilDiv(match p.resident case Some(r) => r case None => sized, parts) + p.overhead;
    if UnifiedClaimOn(p.gpus, p.utilization, n, headroom, reserved, need).Verdict? {
      SizedIsTheLeast(p.utilization, n, headroom, reserved, need);
    }
  }

  /** Any utilization up to the judged one claims no more than the node has free. */
  lemma LowerClaimsAreFree(p: Preset, n: Node, headroom: nat, reserved: nat, sized: nat, split: bool, parts: nat, u: real)
    requires parts > 0 && Judged(p, n, headroom, reserved, sized, split, parts) && reserved <= Max(n.budget, 0)
    requires p.gpus && UnifiedOn(p, n, headroom, reserved, sized, parts).Verdict? ==>
               0.0 < (if u > 0.0 then u else p.utilization) <= UnifiedOn(p, n, headroom, reserved, sized, parts).utilization
    ensures ClaimOn(p, n, u) <= n.budget - reserved
  {
    var need := CeilDiv(match p.resident case Some(r) => r case None => sized, parts) + p.overhead;
    if p.gpus && MemoryOf(n) > 0 {
      SizedIsTheLeast(p.utilization, n, headroom, reserved, need);
      var w := UnifiedOn(p, n, headroom, reserved, sized, parts);
      ClaimMonotone(if u > 0.0 then u else p.utilization, w.utilization, MemoryOf(n));
    }
  }

  lemma ClaimMonotone(u: real, t: real, memory: nat)
    requires u <= t
    ensures Truncated(u, memory) <= Truncated(t, memory)
  {
    assert (t - u) * memory as real >= 0.0;
  }

  /** Copies added to an object that runs at no more than each new node was judged at. */
  predicate NoMoreThanJudged(c: Cluster, served: seq<Served>, a: Action)
    requires a.Serve? && a.preset in c.presets
  {
    var p := c.presets[a.preset];
    forall n :: n in NewNodes(served, a) && p.gpus ==>
      var uv := UnifiedOn(p, At(c.nodes, n), c.headroom, Others(c, served, a.preset, n), a.sized, 1);
      uv.Verdict? ==> OwnUtilization(c, served, a) <= uv.utilization
  }

  lemma AddedCopiesAreFree(c: Cluster, served: seq<Served>, a: Action)
    requires WellFormed(c, served) && Within(c, served) && Placed(c, served, a) && Find(served, a.preset).Some?
    requires NoMoreThanJudged(c, served, a)
    ensures ClaimsAreFree(c, served, a)
  {
    var u := served[Find(served, a.preset).value].utilization;
    forall n | n in NewNodes(served, a)
      ensures ClaimOn(c.presets[a.preset], At(c.nodes, n), u) <= At(c.nodes, n).budget - Counted(c, served, n)
    {
      JudgedBesideAll(c, served, a, n);
      assert Counted(c, served, n) <= Max(At(c.nodes, n).budget, 0);
      LowerClaimsAreFree(c.presets[a.preset], At(c.nodes, n), c.headroom, Others(c, served, a.preset, n), a.sized, a.split, 1, u);
    }
  }

  lemma ClaimsRunAt(c: Cluster, served: seq<Served>, a: Action, n: string)
    requires WellFormed(c, served) && Within(c, served) && Placed(c, served, a) && n in NewNodes(served, a)
    requires RunsUnjudged(c, served, a)
    ensures ClaimOn(c.presets[a.preset], At(c.nodes, n), RunsAt(c, served, a))
            == if MemoryOf(At(c.nodes, n)) == 0 then 0 else Truncated(OwnUtilization(c, served, a), MemoryOf(At(c.nodes, n)))
    ensures FreeBytes(c, served, a.preset, n) == At(c.nodes, n).budget - Counted(c, served, n)
  {
    JudgedBesideAll(c, served, a, n);
    assert Counted(c, served, n) <= Max(At(c.nodes, n).budget, 0);
    if Find(served, a.preset).None? {
      var p := c.presets[a.preset];
      var us := seq(|a.on|, i requires 0 <= i < |a.on| =>
        UtilizationOn(p, At(c.nodes, a.on[i]), c.headroom, Others(c, served, a.preset, a.on[i]), a.sized, PartsOf(a)));
      assert ComposedUtilization(c, served, a) == C.Lowest(us);
      C.LowestIsLeast(us);
    }
  }

  /** An admitted serve keeps every budget exactly when it does not run unjudged at a claim
      above what was free. */
  lemma PlacedKeepsBudgets(c: Cluster, served: seq<Served>, a: Action)
    requires WellFormed(c, served) && Within(c, served) && Placed(c, served, a)
    requires c.presets[a.preset].weights <= a.sized
    ensures Within(c, Step(c, served, a)) <==> !Overclaims(c, served, a)
  {
    FreeClaimsKeepBudgets(c, served, a);
    var p := c.presets[a.preset];
    if RunsUnjudged(c, served, a) {
      forall n | n in NewNodes(served, a)
        ensures ClaimOn(p, At(c.nodes, n), RunsAt(c, served, a)) <= At(c.nodes, n).budget - Counted(c, served, n)
                <==> !(MemoryOf(At(c.nodes, n)) > 0
                       && Truncated(OwnUtilization(c, served, a), MemoryOf(At(c.nodes, n))) > FreeBytes(c, served, a.preset, n))
      {
        ClaimsRunAt(c, served, a, n);
      }
    } else if Find(served, a.preset).None? {
      NewServesAreFree(c, served, a);
    } else {
      AddedCopiesAreFree(c, served, a);
    }
  }

  /** A serve that runs unjudged within what unifiedClaimOn found available does not overclaim. */
  lemma AvailableSuffices(c: Cluster, served: seq<Served>, a: Action)
    requires a.Serve? && a.preset in c.presets && Overclaims(c, served, a)
    ensures exists n :: n in NewNodes(served, a) && MemoryOf(At(c.nodes, n)) > 0
              && Truncated(OwnUtilization(c, served, a), MemoryOf(At(c.nodes, n)))
                 > UnifiedClaimOn(true, c.presets[a.preset].utilization, At(c.nodes, n), c.headroom,
                                  Others(c, served, a.preset, n), a.sized).available
  {
    var n :| n in NewNodes(served, a) && MemoryOf(At(c.nodes, n)) > 0
      && Truncated(OwnUtilization(c, served, a), MemoryOf(At(c.nodes, n))) > FreeBytes(c, served, a.preset, n);
    assert UnifiedClaimOn(true, c.presets[a.preset].utilization, At(c.nodes, n), c.headroom,
                          Others(c, served, a.preset, n), a.sized).available <= FreeBytes(c, served, a.preset, n);
  }

  // ------------------------------------------------------------ every run

  function Run(c: Cluster, actions: seq<Action>): seq<Served> {
    if actions == [] then [] else Step(c, Run(c, actions[..|actions| - 1]), actions[|actions| - 1])
  }

  /** The weights a placed serve was sized at cover the declared ones. */
  predicate Covered(c: Cluster, served: seq<Served>, a: Action) {
    Placed(c, served, a) ==> c.presets[a.preset].weights <= a.sized
  }

  /** No pipeline-parallel preset is served on GPUs, and copies are added only to an object
      that runs at no more than the new nodes were judged at. */
  predicate Plain(c: Cluster, served: seq<Served>, a: Action) {
    Placed(c, served, a) ==>
      match Find(served, a.preset)
      case None => !(c.presets[a.preset].gpus && c.presets[a.preset].pipeline)
      case Some(_) => NoMoreThanJudged(c, served, a)
  }

  lemma PlainNeverOverclaims(c: Cluster, served: seq<Served>, a: Action)
    requires WellFormed(c, served) && Within(c, served) && Placed(c, served, a)
    requires Covered(c, served, a) && Plain(c, served, a)
    ensures !Overclaims(c, served, a)
  {
    if Find(served, a.preset).None? { NewServesAreFree(c, served, a); } else { AddedCopiesAreFree(c, served, a); }
    FreeClaimsKeepBudgets(c, served, a);
    PlacedKeepsBudgets(c, served, a);
  }

  /** Every run of admitted serves, sized above the declared weights and run as judged, and
      of stops keeps every node within its budget. */
  lemma {:induction false} EveryRun(c: Cluster, actions: seq<Action>)
    requires forall i :: 0 <= i < |actions| ==> Covered(c, Run(c, actions[..i]), actions[i]) && Plain(c, Run(c, actions[..i]), actions[i])
    ensures WellFormed(c, Run(c, actions)) && Within(c, Run(c, actions))
  {
    if actions != [] {
      var before, a := actions[..|actions| - 1], actions[|actions| - 1];
      assert forall i :: 0 <= i < |before| ==> before[..i] == actions[..i];
      EveryRun(c, before);
      StepStaysWellFormed(c, Run(c, before), a);
      if Placed(c, Run(c, before), a) {
        PlainNeverOverclaims(c, Run(c, before), a);
        PlacedKeepsBudgets(c, Run(c, before), a);
      } else {
        OtherStepsKeepBudgets(c, Run(c, before), a);
      }
    } else {
      assert forall n :: Counted(c, [], n) == 0;
    }
  }

  lemma {:induction false} RunStaysWellFormed(c: Cluster, actions: seq<Action>)
    ensures WellFormed(c, Run(c, actions))
  {
    if actions != [] {
      RunStaysWellFormed(c, actions[..|actions| - 1]);
      StepStaysWellFormed(c, Run(c, actions[..|actions| - 1]), actions[|actions| - 1]);
    }
  }

  /** The run is within every budget after k steps. */
  ghost predicate WithinAt(c: Cluster, actions: seq<Action>, k: nat)
    requires k <= |actions|
  {
    Within(c, Run(c, actions[..k]))
  }

  predicate CoveredAt(c: Cluster, actions: seq<Action>, i: nat)
    requires i < |actions|
  {
    Covered(c, Run(c, actions[..i]), actions[i])
  }

  /** Step i of the run is a serve that overclaims. */
  predicate OverclaimsAt(c: Cluster, actions: seq<Action>, i: nat)
    requires i < |actions|
  {
    Placed(c, Run(c, actions[..i]), actions[i]) && Overclaims(c, Run(c, actions[..i]), actions[i])
  }

  /** One step of a run that is within the budgets. */
  lemma StepWithin(c: Cluster, actions: seq<Action>, i: nat)
    requires i < |actions| && CoveredAt(c, actions, i) && WithinAt(c, actions, i)
    ensures WithinAt(c, actions, i + 1) <==> !OverclaimsAt(c, actions, i)
  {
    assert actions[..i + 1][..i] == actions[..i];
    RunStaysWellFormed(c, actions[..i]);
    if Placed(c, Run(c, actions[..i]), actions[i]) {
      PlacedKeepsBudgets(c, Run(c, actions[..i]), actions[i]);
    } else {
      OtherStepsKeepBudgets(c, Run(c, actions[..i]), actions[i]);
    }
  }

  /** Of the runs sized above the declared weights, those that stay within every budget
      throughout are the ones in which no serve overclaims. */
  lemma RunsWithinBudgets(c: Cluster, actions: seq<Action>)
    requires forall i :: 0 <= i < |actions| ==> CoveredAt(c, actions, i)
    ensures (forall k :: 0 <= k <= |actions| ==> WithinAt(c, actions, k))
            <==> (forall i :: 0 <= i < |actions| ==> !OverclaimsAt(c, actions, i))
  {
    if forall k :: 0 <= k <= |actions| ==> WithinAt(c, actions, k) {
      forall i | 0 <= i < |actions| ensures !OverclaimsAt(c, actions, i) {
        assert WithinAt(c, actions, i) && WithinAt(c, actions, i + 1);
        StepWithin(c, actions, i);
      }
    }
    if forall i :: 0 <= i < |actions| ==> !OverclaimsAt(c, actions, i) {
      EmptyIsWithin(c);
      for k := 0 to |actions|
        invariant forall j :: 0 <= j <= k ==> WithinAt(c, actions, j)
      {
        StepWithin(c, actions, k);
      }
    }
  }

  lemma EmptyIsWithin(c: Cluster)
    ensures Within(c, [])
  {
    assert forall n :: Counted(c, [], n) == 0;
  }

  // ------------------------------------------------------------ in plain figures

  /** The weights parted over the nodes, rounded up, beside the whole overhead. */
  ghost function Needs(p: Preset, parts: nat): nat
    requires parts > 0
  {
    (p.weights + parts - 1) / parts + p.overhead
  }

  /** Of GPUs that share the node's memory, the utilization's part of it, truncated. */
  ghost function Claims(p: Preset, n: Node, utilization: real): int {
    var memory := if n.capacity > 0 then n.capacity else n.budget;
    if !p.gpus || n.gpuCount == 0 || n.gpuMemory > 0 || memory <= 0 then 0
    else if utilization > 0.0 then (utilization * memory as real).Floor
    else (p.utilization * memory as real).Floor
  }

  lemma ClaimsAre(p: Preset, n: Node, utilization: real)
    ensures ClaimOn(p, n, utilization) == Claims(p, n, utilization)
  {
  }

  /** The object runs on n. */
  ghost predicate RunsOn(presets: Presets, sv: Served, n: string) { !sv.deleting && sv.preset in presets && n in sv.nodes }

  ghost function PartsRun(sv: Served): nat { if sv.split && sv.nodes != [] then |sv.nodes| else 1 }

  /** The budget part of the fit check on a node: it has a budget, what is sized, parted, fits beside
      what is reserved, or nothing needs to, and the GPUs that share its memory hold the resident
      part at the preset's utilization or a lower one. */
  lemma JudgedSays(p: Preset, n: Node, headroom: nat, reserved: nat, sized: nat, split: bool, parts: nat)
    requires parts > 0
    ensures var resident := if p.resident.Some? then p.resident.value else sized;
            var v := UnifiedClaimOn(p.gpus, p.utilization, n, headroom, reserved, (resident + parts - 1) / parts + p.overhead);
            var need := (sized + parts - 1) / parts + p.overhead;
            Judged(p, n, headroom, reserved, sized, split, parts) <==>
              && n.budget > 0 && (need + reserved <= n.budget || (need == 0 && !split)) && (v.Verdict? ==> Sized(v).fits)
  {
  }

  /** A serve is admitted when it asks for nodes, each once, the rest of their verdicts is good and each
      of them takes its part of it; else nothing changes. */
  lemma AdmittedSays(c: Cluster, served: seq<Served>, a: Action)
    requires a.Serve? && a.preset in c.presets
    ensures Admits(c, served, a) <==>
              && |a.on| > 0 && (forall i, j :: 0 <= i < j < |a.on| ==> a.on[i] != a.on[j]) && a.others
              && forall n :: n in a.on ==>
                   Judged(c.presets[a.preset], At(c.nodes, n), c.headroom, Others(c, served, a.preset, n), a.sized, a.split,
                          if a.split then |a.on| else 1)
    ensures !Admits(c, served, a) ==> Step(c, served, a) == served
  {
    var parts := if a.split then |a.on| else 1;
    if forall i :: 0 <= i < |a.on| ==>
         Judged(c.presets[a.preset], At(c.nodes, a.on[i]), c.headroom, Others(c, served, a.preset, a.on[i]), a.sized, a.split, parts) {
      forall n | n in a.on
        ensures Judged(c.presets[a.preset], At(c.nodes, n), c.headroom, Others(c, served, a.preset, n), a.sized, a.split, parts)
      {
        var i :| 0 <= i < |a.on| && a.on[i] == n;
      }
    }
  }

  /** Each running object that is not the one loaded reserves, on each of its nodes, the larger of
      what it needs and what it claims, and nothing else does. */
  lemma ReservedOneMore(presets: Presets, nodes: Nodes, served: seq<Served>, sv: Served, loading: Option<string>, n: string)
    requires Distinct(sv.nodes)
    ensures Reserved(presets, nodes, [], loading, n) == 0
    ensures var more := Reserved(presets, nodes, served + [sv], loading, n) - Reserved(presets, nodes, served, loading, n);
            if RunsOn(presets, sv, n) && loading != Some(sv.preset) then
              var needs, claims := Needs(presets[sv.preset], PartsRun(sv)), Claims(presets[sv.preset], At(nodes, n), sv.utilization);
              more >= needs && more >= claims && (more == needs || more == claims)
            else more == 0
  {
    assert (served + [sv])[..|served|] == served;
    if sv.preset in presets {
      TimesOf(sv.nodes, n, ShareOn(presets, nodes, sv, n));
      ClaimsAre(presets[sv.preset], At(nodes, n), sv.utilization);
    }
  }

  /** What the objects on n need, and what they claim. */
  ghost function NeedsOn(presets: Presets, served: seq<Served>, n: string): nat {
    if served == [] then 0
    else
      var sv := served[|served| - 1];
      NeedsOn(presets, served[..|served| - 1], n) + if RunsOn(presets, sv, n) then Needs(presets[sv.preset], PartsRun(sv)) else 0
  }

  ghost function ClaimsOn(presets: Presets, nodes: Nodes, served: seq<Served>, n: string): int {
    if served == [] then 0
    else
      var sv := served[|served| - 1];
      ClaimsOn(presets, nodes, served[..|served| - 1], n)
      + if RunsOn(presets, sv, n) then Claims(presets[sv.preset], At(nodes, n), sv.utilization) else 0
  }

  lemma {:induction false} CountedCovers(c: Cluster, served: seq<Served>, n: string)
    requires forall sv :: sv in served ==> Distinct(sv.nodes)
    ensures NeedsOn(c.presets, served, n) <= Counted(c, served, n)
    ensures ClaimsOn(c.presets, c.nodes, served, n) <= Counted(c, served, n)
  {
    if served != [] {
      var front, sv := served[..|served| - 1], served[|served| - 1];
      assert served == front + [sv];
      CountedCovers(c, front, n);
      ReservedOneMore(c.presets, c.nodes, front, sv, None, n);
    }
  }

  /** Over those runs what the running models need of a node, and what they claim of it, are each
      within its budget. */
  lemma EveryRunFits(c: Cluster, actions: seq<Action>, n: string)
    requires forall i :: 0 <= i < |actions| ==> Covered(c, Run(c, actions[..i]), actions[i]) && Plain(c, Run(c, actions[..i]), actions[i])
    ensures NeedsOn(c.presets, Run(c, actions), n) <= Max(At(c.nodes, n).budget, 0)
    ensures ClaimsOn(c.presets, c.nodes, Run(c, actions), n) <= Max(At(c.nodes, n).budget, 0)
  {
    EveryRun(c, actions);
    CountedCovers(c, Run(c, actions), n);
  }

  // ------------------------------------------------------------ where it fails

  function SampleNode(): Node { Node(1000, 1000, 1, 0) }

  /** Two unified-memory nodes of 1000 bytes; "q" claims half of "b", "p" asks for 0.9. */
  function SampleCluster(pipeline: bool): Cluster {
    Cluster(map["p" := Preset(true, pipeline, 0.9, 100, 0, None), "q" := Preset(true, false, 0.5, 500, 0, None)],
            map["a" := SampleNode(), "b" := SampleNode()], 100)
  }

  const Q := Served("q", ["b"], false, 0.5, false, 1)
  const P := Served("p", ["a"], false, 0.9, false, 1)

  /** Beside 500 reserved bytes "p" is admitted at a tenth, though at 0.9 it claims 900. */
  lemma SampleAdmission(pipeline: bool)
    ensures var p := SampleCluster(pipeline).presets["p"];
            && Judged(p, SampleNode(), 100, 500, 100, false, 1)
            && UtilizationOn(p, SampleNode(), 100, 500, 100, 1) == (if pipeline then 0.0 else 0.1)
            && ClaimOn(p, SampleNode(), 0.9) == 900 && ClaimOn(p, SampleNode(), 0.0) == 900
  {
    assert CeilDiv(100, 1) == 100;
    CeilRatio(100, 1000, 10);
    CeilRatio(100, 1000, 9);
    HoldsBelow(10, 1000, 100);
    HoldsBelow(10, 1000, 101);
  }

  lemma SampleCounts(served: seq<Served>)
    requires served == [Q] || served == [Q, P]
    ensures forall pipeline :: Counted(SampleCluster(pipeline), served, "b") == 500
    ensures forall pipeline :: Within(SampleCluster(pipeline), served)
  {
    assert [Q][..0] == [] && [Q, P][..1] == [Q];
    forall pipeline, n ensures Counted(SampleCluster(pipeline), served, n) == (if n == "b" then 500 else if n == "a" && |served| == 2 then 900 else 0) {
      var c := SampleCluster(pipeline);
      SampleAdds(pipeline, n);
      assert Counted(c, [Q], n) == Counted(c, [], n) + Adds(c.presets, c.nodes, Q, n);
    }
  }

  lemma SampleAdds(pipeline: bool, n: string)
    ensures var c := SampleCluster(pipeline);
            && Adds(c.presets, c.nodes, Q, n) == (if n == "b" then 500 else 0)
            && Adds(c.presets, c.nodes, P, n) == (if n == "a" then 900 else 0)
  {
    var c := SampleCluster(pipeline);
    assert Truncated(0.5, 1000) == 500 && Truncated(0.9, 1000) == 900;
    assert CeilDiv(500, 1) == 500 && CeilDiv(100, 1) == 100;
    TimesOf(["b"], n, ShareOn(c.presets, c.nodes, Q, n));
    TimesOf(["a"], n, ShareOn(c.presets, c.nodes, P, n));
  }

  /** A copy that claims more than Available, what is left of the budget beside the host
      headroom, can still keep the budget: 950 of the 1000 bytes of "b", of which 900 are available. */
  lemma AboveAvailableWithinBudget()
    ensures var c := Cluster(map["p" := Preset(true, false, 0.95, 100, 0, None)], map["a" := Node(2000, 2000, 1, 0), "b" := SampleNode()], 100);
            var served := [Served("p", ["a"], false, 0.95, false, 1)];
            var a := Serve("p", ["b"], false, 100, true, 1);
            && WellFormed(c, served) && Within(c, served) && Placed(c, served, a) && Within(c, Step(c, served, a))
            && UnifiedClaimOn(true, 0.95, SampleNode(), 100, 0, 100).available == 900
            && ClaimOn(c.presets["p"], SampleNode(), served[0].utilization) == 950
  {
    var c := Cluster(map["p" := Preset(true, false, 0.95, 100, 0, None)], map["a" := Node(2000, 2000, 1, 0), "b" := SampleNode()], 100);
    var served := [Served("p", ["a"], false, 0.95, false, 1)];
    var a := Serve("p", ["b"], false, 100, true, 1);
    assert Truncated(0.95, 1000) == 950 && Truncated(0.95, 2000) == 1900 && CeilDiv(100, 1) == 100;
    CeilRatio(100, 1000, 10);
    CeilRatio(100, 1000, 9);
    HoldsBelow(10, 1000, 100);
    HoldsBelow(10, 1000, 101);
    forall n ensures Counted(c, served, n) == if n == "a" then 1900 else 0 {
      assert served[..0] == [];
      TimesOf(["a"], n, ShareOn(c.presets, c.nodes, served[0], n));
      assert Counted(c, served, n) == Counted(c, [], n) + Adds(c.presets, c.nodes, served[0], n);
    }
    assert Find(served, "p") == Some(0);
    C.MissingAreTheNew(["a"], ["b"]);
    OwnNothing(c, served, "p", "b");
    OwnAside(c.presets, c.nodes, served, Some("p"), "b");
    assert Judged(c.presets["p"], SampleNode(), 100, 0, 100, false, 1);
    PlacedKeepsBudgets(c, served, a);
  }

  /** A copy added where only a tenth is left runs at the object's 0.9: the node is over its budget. */
  lemma AddedCopyExceeds()
    ensures var c, a := SampleCluster(false), Serve("p", ["b"], false, 100, true, 1);
            Within(c, [Q, P]) && Placed(c, [Q, P], a) && !Within(c, Step(c, [Q, P], a))
  {
    var c, a := SampleCluster(false), Serve("p", ["b"], false, 100, true, 1);
    SampleCounts([Q, P]);
    SampleAdmission(false);
    assert WellFormed(c, [Q, P]);
    OwnNothing(c, [Q, P], "p", "b");
    OwnAside(c.presets, c.nodes, [Q, P], Some("p"), "b");
    assert Find([Q, P], "p") == Some(1);
    C.MissingAreTheNew(["a"], ["b"]);
    assert "b" in NewNodes([Q, P], a);
    PlacedKeepsBudgets(c, [Q, P], a);
  }

  /** A pipeline-parallel preset admitted at a tenth, on a node whose time-sliced replicas
      are devices enough, runs at its own 0.9. */
  lemma PipelineServeExceeds()
    ensures var c, a := SampleCluster(true), Serve("p", ["b"], false, 100, true, 1);
            Within(c, [Q]) && Placed(c, [Q], a) && !Within(c, Step(c, [Q], a))
  {
    var c, a := SampleCluster(true), Serve("p", ["b"], false, 100, true, 1);
    SampleCounts([Q]);
    SampleAdmission(true);
    assert WellFormed(c, [Q]);
    OwnNothing(c, [Q], "p", "b");
    OwnAside(c.presets, c.nodes, [Q], Some("p"), "b");
    assert Find([Q][..0], "p") == None;
    assert "b" in NewNodes([Q], a);
    assert ComposedUtilization(c, [Q], a) == 0.0;
    PlacedKeepsBudgets(c, [Q], a);
  }
}
