/** The share of a unified-memory node vLLM claims at start (internal/backend/kserve/fit.go,
    shape.go): what of the node it may claim, and the utilization, in hundredths, that
    would fit and hold the model. Exact arithmetic. */
module Unified {
  import opened Basics

  /** A --gpu-memory-utilization, as parseUtilization admits it. */
  type Fraction = u: real | 0.0 < u <= 1.0 witness 1.0

  /** What the check knows of a node; capacity, the memory of the node, is 0 when the node
      does not report it, and gpuMemory is 0 when the GPUs report none of their own. */
  datatype Node = Node(budget: int, capacity: int, gpuCount: nat, gpuMemory: nat)

  /** The memory the GPUs of a unified-memory node share with it; 0 on any other node. */
  function MemoryOf(n: Node): (r: int)
    ensures r >= 0
  {
    if n.gpuCount == 0 || n.gpuMemory > 0 then 0
    else if n.capacity > 0 then n.capacity
    else if n.budget > 0 then n.budget
    else 0
  }

  /** int64(u * memory). */
  function Truncated(u: real, memory: nat): int { (u * memory as real).Floor }

  function Ceil(x: real): int { -(-x).Floor }

  function Ratio(a: int, memory: int): real
    requires memory > 0
  {
    a as real / memory as real
  }

  function FloorHundredth(x: real): real { (x * 100.0).Floor as real / 100.0 }
  function CeilHundredth(x: real): real { Ceil(x * 100.0) as real / 100.0 }

  datatype Verdict = Unchecked | Verdict(
    fits: bool, utilization: real, claim: int, memory: nat, available: nat, need: nat,
    fit: real,    // the utilization a refusal names; 0 for none
    holds: real)  // the lowest utilization that holds the need; 0 for none

  predicate Short(v: Verdict) { v.Verdict? && v.claim <= v.available && v.claim < v.need }

  /** unifiedClaimOn, for a preset that requests GPUs (gpus) or a CPU or missing one. */
  function UnifiedClaimOn(gpus: bool, utilization: Fraction, n: Node, headroom: nat, reserved: nat, need: nat): Verdict {
    var memory := MemoryOf(n);
    if !gpus || memory == 0 then Unchecked
    else
      var claim := Truncated(utilization, memory);
      var available := Max(Min(n.budget, memory - headroom) - reserved, 0);
      var fits := claim <= available && claim >= need;
      if claim > available then
        var u := FloorHundredth(Ratio(available, memory));
        Verdict(fits, utilization, claim, memory, available, need,
                if u > 0.0 && Truncated(u, memory) >= need then u else 0.0, 0.0)
      else if claim < need then
        var u := CeilHundredth(Ratio(need, memory));
        if u <= 1.0 then
          Verdict(fits, utilization, claim, memory, available, need,
                  if Truncated(u, memory) <= available then u else 0.0, u)
        else Verdict(fits, utilization, claim, memory, available, need, 0.0, 0.0)
      else Verdict(fits, utilization, claim, memory, available, need, 0.0, 0.0)
  }

  /** The verdict in its figures: what the GPUs share with the node, the utilization's part of it,
      what running models and the host leave of it. */
  lemma VerdictSays(gpus: bool, u: Fraction, n: Node, headroom: nat, reserved: nat, need: nat)
    ensures var v := UnifiedClaimOn(gpus, u, n, headroom, reserved, need);
            && (v.Verdict? <==> gpus && n.gpuCount > 0 && n.gpuMemory == 0 && (n.capacity > 0 || n.budget > 0))
            && (v.Verdict? ==>
                  && v.utilization == u && v.need == need
                  && v.memory == (if n.capacity > 0 then n.capacity else n.budget)
                  && IsPart(v.claim, u, v.memory) && (v.fits <==> need <= v.claim <= v.available)
                  && IsLeft(v.available, n.budget - reserved, v.memory - headroom - reserved))
  {
    var memory := MemoryOf(n);
    assert memory == if n.gpuCount == 0 || n.gpuMemory > 0 then 0 else if n.capacity > 0 then n.capacity else Max(n.budget, 0);
    TruncatedIsPart(u, memory);
    if gpus && memory > 0 { CheckedSays(u, n, headroom, reserved, need, memory); }
  }

  lemma CheckedSays(u: Fraction, n: Node, headroom: nat, reserved: nat, need: nat, memory: int)
    requires memory == MemoryOf(n) > 0
    ensures var v := UnifiedClaimOn(true, u, n, headroom, reserved, need);
            && v.Verdict? && v.utilization == u && v.need == need && v.memory == memory
            && v.claim == Truncated(u, memory) && v.available == Max(Min(n.budget, memory - headroom) - reserved, 0)
            && (v.fits <==> need <= v.claim <= v.available)
  {
  }

  /** claim is the part u of memory, without its fraction. */
  ghost predicate IsPart(claim: int, u: real, memory: nat) { claim as real <= u * memory as real < (claim + 1) as real }

  lemma TruncatedIsPart(u: real, memory: nat)
    ensures IsPart(Truncated(u, memory), u, memory)
  {
  }

  /** The lesser of the two, nothing when it is below nothing. */
  ghost predicate IsLeft(x: int, a: int, b: int) { x >= 0 && (x > 0 ==> x <= a && x <= b) && (a >= 0 && b >= 0 ==> x == a || x == b) }

  /** sized. */
  function Sized(v: Verdict): Verdict {
    if !v.Verdict? || v.fits || Short(v) || v.memory <= 0 then v
    else
      var u := CeilHundredth(Ratio(v.need, v.memory));
      var claim := Truncated(u, v.memory);
      if u <= 0.0 || u > 1.0 || claim > v.available then v
      else v.(utilization := u, claim := claim, fits := true)
  }

  // ------------------------------------------------------------ hundredths

  function Hundredth(h: int): real { h as real / 100.0 }

  lemma FloorOf(x: real, k: int)
    ensures k as real <= x <==> k <= x.Floor
  {
  }

  lemma CeilOf(x: real, k: int)
    ensures x <= k as real <==> Ceil(x) <= k
  {
  }

  /** What a hundredth claims, truncated, is at least need just when, untruncated, it is. */
  lemma HoldsBelow(h: int, memory: int, need: int)
    requires memory > 0
    ensures Truncated(Hundredth(h), memory) >= need <==> 100 * need <= h * memory
  {
    assert Hundredth(h) * memory as real == (h * memory) as real / 100.0;
    FloorOf(Hundredth(h) * memory as real, need);
  }

  lemma RatioAbove(a: int, memory: int, h: int)
    requires memory > 0
    ensures h as real <= Ratio(a, memory) * 100.0 <==> h * memory <= 100 * a
    ensures Ratio(a, memory) * 100.0 <= h as real <==> 100 * a <= h * memory
  {
    var m := memory as real;
    var x := Ratio(a, memory) * 100.0;
    assert x * m == (100 * a) as real;
    assert h as real * m == (h * memory) as real;
    ScaledOrder(h as real, x, m);
    ScaledOrder(x, h as real, m);
  }

  lemma ScaledOrder(x: real, y: real, m: real)
    requires m > 0.0
    ensures x <= y <==> x * m <= y * m
  {
    if x <= y { assert (y - x) * m >= 0.0; } else { assert (x - y) * m > 0.0; }
  }

  /** floor(100 a / memory), as the code computes it. */
  lemma FloorRatio(a: int, memory: int, h: int)
    requires memory > 0
    ensures h <= (Ratio(a, memory) * 100.0).Floor <==> h * memory <= 100 * a
  {
    RatioAbove(a, memory, h);
    FloorOf(Ratio(a, memory) * 100.0, h);
  }

  lemma CeilRatio(a: int, memory: int, h: int)
    requires memory > 0
    ensures Ceil(Ratio(a, memory) * 100.0) <= h <==> 100 * a <= h * memory
  {
    RatioAbove(a, memory, h);
    CeilOf(Ratio(a, memory) * 100.0, h);
  }

  // ------------------------------------------------------------ what the verdict names

  /** A hundredth of the memory that holds the need within what is available. */
  predicate Serves(v: Verdict, h: int)
    requires v.Verdict?
  {
    v.need <= Truncated(Hundredth(h), v.memory) <= v.available
  }

  /** A proposed utilization is a whole hundredth, at most 1, that holds the need within what is available. */
  lemma FitServes(utilization: Fraction, n: Node, headroom: nat, reserved: nat, need: nat) returns (h: int)
    ensures var v := UnifiedClaimOn(true, utilization, n, headroom, reserved, need);
            v.Verdict? && v.fit > 0.0 ==> 1 <= h <= 100 && v.fit == Hundredth(h) && Serves(v, h)
  {
    var v := UnifiedClaimOn(true, utilization, n, headroom, reserved, need);
    if !v.Verdict? || v.fit <= 0.0 {
      h := 0;
    } else if v.claim > v.available {
      h := (Ratio(v.available, v.memory) * 100.0).Floor;
      FloorRatio(v.available, v.memory, h);
      FloorRatio(v.available, v.memory, 101);
      HoldsBelow(h, v.memory, v.available + 1);
    } else {
      h := Ceil(Ratio(v.need, v.memory) * 100.0);
      CeilRatio(v.need, v.memory, h);
      HoldsBelow(h, v.memory, v.need);
    }
  }

  /** For a claim that is too large, Fit is the greatest hundredth not above
      Available/Memory, and is named exactly when that one is positive and holds the need. */
  lemma FitIsTheGreatest(utilization: Fraction, n: Node, headroom: nat, reserved: nat, need: nat) returns (g: int)
    ensures var v := UnifiedClaimOn(true, utilization, n, headroom, reserved, need);
            v.Verdict? && v.claim > v.available ==>
            && (forall h: int {:trigger Hundredth(h)} :: Hundredth(h) <= Ratio(v.available, v.memory) <==> h <= g)
            && v.fit == (if g > 0 && Truncated(Hundredth(g), v.memory) >= need then Hundredth(g) else 0.0)
  {
    var v := UnifiedClaimOn(true, utilization, n, headroom, reserved, need);
    if !v.Verdict? { return 0; }
    var x := Ratio(v.available, v.memory);
    g := (x * 100.0).Floor;
    forall h: int ensures Hundredth(h) <= x <==> h <= g { FloorOf(x * 100.0, h); }
  }

  /** For a claim short of the need, Holds is the least hundredth whose claim holds it (0
      when the memory is less), and Fit is that one when available, so that some hundredth
      is proposed exactly when some hundredth serves. */
  lemma HoldsIsTheLeast(utilization: Fraction, n: Node, headroom: nat, reserved: nat, need: nat) returns (g: int)
    ensures var v := UnifiedClaimOn(true, utilization, n, headroom, reserved, need);
            Short(v) ==>
            && (forall h: int {:trigger Hundredth(h)} :: Truncated(Hundredth(h), v.memory) >= need <==> g <= h)
            && v.holds == (if need <= v.memory then Hundredth(g) else 0.0)
            && (v.fit > 0.0 <==> exists h: int :: h <= 100 && Serves(v, h))
            && (v.fit > 0.0 ==> v.fit == v.holds)
  {
    var v := UnifiedClaimOn(true, utilization, n, headroom, reserved, need);
    if !Short(v) { return 0; }
    g := Ceil(Ratio(need, v.memory) * 100.0);
    forall h: int ensures Truncated(Hundredth(h), v.memory) >= need <==> g <= h {
      CeilRatio(need, v.memory, h);
      HoldsBelow(h, v.memory, need);
    }
    CeilRatio(need, v.memory, 100);
    CeilRatio(need, v.memory, 0);
    forall h: int | h <= 100 && Serves(v, h) ensures Serves(v, g) && 0 < g <= 100 {
      TruncatedMonotone(g, h, v.memory);
    }
    if v.fit > 0.0 { assert Serves(v, g); }
  }

  lemma TruncatedMonotone(g: int, h: int, memory: nat)
    requires g <= h
    ensures Truncated(Hundredth(g), memory) <= Truncated(Hundredth(h), memory)
  {
    assert Hundredth(h) * memory as real - Hundredth(g) * memory as real == ((h - g) * memory) as real / 100.0;
    assert (h - g) * memory >= 0;
  }

  /** Fit is the greatest hundredth whose truncated claim is available exactly when the
      part of a hundredth left over is a hundred bytes short of a whole one. */
  lemma FitIsTheGreatestClaim(memory: nat, available: nat) returns (g: int)
    requires memory > 0
    ensures FloorHundredth(Ratio(available, memory)) == Hundredth(g)
    ensures Truncated(Hundredth(g), memory) <= available
    ensures (forall h: int {:trigger Hundredth(h)} :: Truncated(Hundredth(h), memory) <= available ==> h <= g)
            <==> (100 * available) % memory <= memory - 100
  {
    g := (Ratio(available, memory) * 100.0).Floor;
    FloorRatio(available, memory, g);
    FloorRatio(available, memory, g + 1);
    HoldsBelow(g, memory, available + 1);
    HoldsBelow(g + 1, memory, available + 1);
    Remainder(100 * available, memory, g);
    forall h: int | h > g ensures Truncated(Hundredth(h), memory) >= Truncated(Hundredth(g + 1), memory) {
      TruncatedMonotone(g + 1, h, memory);
    }
  }

  lemma Remainder(a: nat, m: nat, q: int)
    requires q * m <= a < (q + 1) * m
    ensures a % m == a - q * m
  {
    var d := a / m;
    assert d < q ==> (d + 1) * m <= q * m;
    assert d > q ==> (q + 1) * m <= d * m;
  }

  /** It is not on a node of 150 bytes that leaves 1: one hundredth claims 1, truncated, yet none is named. */
  lemma FitMissesAHundredth()
    ensures UnifiedClaimOn(true, 0.9, Node(150, 150, 1, 0), 0, 149, 1).fit == 0.0
    ensures Serves(UnifiedClaimOn(true, 0.9, Node(150, 150, 1, 0), 0, 149, 1), 1)
  {
    FloorRatio(1, 150, 1);
    FloorRatio(1, 150, 0);
    HoldsBelow(1, 150, 1);
    HoldsBelow(1, 150, 2);
  }

  /** A preset whose claim is too large is sized down exactly when some hundredth serves it
      and it needs anything, to the least that does; any other verdict stands. */
  lemma SizedIsTheLeast(utilization: Fraction, n: Node, headroom: nat, reserved: nat, need: nat)
    ensures var v := UnifiedClaimOn(true, utilization, n, headroom, reserved, need);
            var w := Sized(v);
            v.Verdict? ==>
            && (w.fits <==> v.fits || (v.claim > v.available && need > 0 && exists h: int :: h <= 100 && Serves(v, h)))
            && (w.fits ==> need <= w.claim == Truncated(w.utilization, v.memory) <= v.available && 0.0 < w.utilization <= 1.0)
            && (w != v ==> w.utilization < v.utilization
                           && forall h: int {:trigger Hundredth(h)} :: Truncated(Hundredth(h), v.memory) >= need <==> w.utilization <= Hundredth(h))
  {
    var v := UnifiedClaimOn(true, utilization, n, headroom, reserved, need);
    var w := Sized(v);
    if v.Verdict? && v.claim > v.available {
      var g := Ceil(Ratio(need, v.memory) * 100.0);
      forall h: int ensures Truncated(Hundredth(h), v.memory) >= need <==> g <= h {
        CeilRatio(need, v.memory, h);
        HoldsBelow(h, v.memory, need);
      }
      CeilRatio(need, v.memory, 0);
      forall h: int | h <= 100 && Serves(v, h) ensures Serves(v, g) && g <= 100 {
        TruncatedMonotone(g, h, v.memory);
      }
      if w != v {
        assert Serves(v, g);
        Smaller(w.utilization, v.utilization, v.memory);
      }
    }
  }

  lemma Smaller(u: real, t: real, memory: nat)
    requires Truncated(u, memory) < Truncated(t, memory)
    ensures u < t
  {
    assert t <= u ==> (u - t) * memory as real >= 0.0;
  }

  /** A preset that needs nothing is refused where a hundredth would serve it. */
  lemma NeedingNothingIsNotSized()
    ensures var v := UnifiedClaimOn(true, 0.9, Node(1000, 1000, 1, 0), 0, 900, 0);
            v.Verdict? && Serves(v, 1) && !Sized(v).fits
  {
    HoldsBelow(1, 1000, 101);
    CeilRatio(0, 1000, 0);
    HoldsBelow(1, 1000, 0);
  }
}
