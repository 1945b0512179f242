/** PlanBackendRemoval against UnwireBackend (internal/service/service.go): when the models
    the plan lists are those the loop removes. */
module WiringPlan {
  import opened Basics
  import opened Flux
  import opened Wiring
  import opened WiringRemoval
  import WiringIdentity
  import Names

  function Annotation(c: Config): string { Get(c.annotations, MODEL) }

  predicate Own(k: Kagent, w: World, n: string) { n in w.configs && IsCreatedHere(k, w.configs[n]) }

  /** One match per (backend, model), and each ModelConfig of b is annotated or has the
      name derived from its model. */
  ghost predicate Nameable(k: Kagent, w: World, listing: seq<string>, b: Backend) {
    && Listing(w, listing) && WiringIdentity.Unique(w.configs) && b != ""
    && forall n :: n in listing && OfBackend(w.configs[n], b) ==> Annotation(w.configs[n]) != "" || n == NameFor(k, w, n)
  }

  function NameFor(k: Kagent, w: World, n: string): string
    requires n in w.configs
  {
    Names.Derived(k.prefix, RefModel(w.configs[n]), k.fnv)
  }

  /** n of backend b is not annotated, and a is annotated with its model: find answers a for both. */
  predicate Twins(w: World, b: Backend, a: string, n: string)
    requires a in w.configs && n in w.configs
  {
    && Managed(w.configs[n]) && OfBackend(w.configs[n], b) && Annotation(w.configs[n]) == ""
    && Managed(w.configs[a]) && Annotated(w.configs[a], b, RefModel(w.configs[n]))
  }

  /** The two are this instance's and go both, or both are other instances'. */
  predicate Agree(k: Kagent, w: World, b: Backend, a: string, n: string)
    requires a in w.configs && n in w.configs
  {
    if IsCreatedHere(k, w.configs[a])
    then OfBackend(w.configs[a], b) && IsCreatedHere(k, w.configs[n]) && Applied(k, w, n).None?
    else !IsCreatedHere(k, w.configs[n]) && Creator(w.configs[n]) != ""
  }

  ghost predicate TwinsAgree(k: Kagent, w: World, b: Backend) {
    forall a, n :: a in w.configs && n in w.configs && Twins(w, b, a, n) ==> Agree(k, w, b, a, n)
  }

  /** The loop did what the plan says: it removed the models planned, which are the
      backend's ModelConfigs this instance created, and left other instances'. */
  ghost predicate AsPlanned(k: Kagent, w: World, listing: seq<string>, b: Backend)
    requires Listing(w, listing)
  {
    var u := Unwire(k, w, listing, ModelsOf(w, listing, b), b);
    && u.failed.None? && u.removed == PlanRemoval(k, w, listing, listing, b).unwires
    && u.after.configs == w.configs - OwnOf(k, w, listing, b)
    && OthersAreLeft(k, u.after.configs, b)
  }

  ghost predicate OthersAreLeft(k: Kagent, configs: map<string, Config>, b: Backend) {
    forall n :: n in configs && Managed(configs[n]) && OfBackend(configs[n], b) ==>
      Creator(configs[n]) != "" && Creator(configs[n]) != k.instance
  }

  // ------------------------------------------------------------ which one a turn finds

  function Hit(w: World, listing: seq<string>, b: Backend, n: string): Option<string>
    requires n in w.configs && forall x :: x in listing ==> x in w.configs
  {
    FirstAnnotated(w.configs, listing, b, RefModel(w.configs[n]))
  }

  /** The one the plan finds for n's model. */
  function PlanTarget(w: World, listing: seq<string>, b: Backend, n: string): string
    requires n in w.configs && forall x :: x in listing ==> x in w.configs
  {
    var hit := Hit(w, listing, b, n);
    if hit.Some? then hit.value else n
  }

  lemma HitCases(k: Kagent, w: World, listing: seq<string>, b: Backend, n: string)
    requires Nameable(k, w, listing, b) && n in listing && OfBackend(w.configs[n], b)
    ensures Annotation(w.configs[n]) != "" ==> Hit(w, listing, b, n) == Some(n)
    ensures Annotation(w.configs[n]) == "" ==>
              forall a :: a in w.configs && Managed(w.configs[a]) && Annotated(w.configs[a], b, RefModel(w.configs[n])) ==>
                Hit(w, listing, b, n) == Some(a)
    ensures Annotation(w.configs[n]) == "" && Hit(w, listing, b, n).Some? ==> Twins(w, b, Hit(w, listing, b, n).value, n)
    ensures Find(k, w, listing, b, RefModel(w.configs[n])) == Some(PlanTarget(w, listing, b, n))
  {
    var model := RefModel(w.configs[n]);
    if Annotation(w.configs[n]) != "" {
      WiringIdentity.FindIsTheMatch(k, w, listing, b, model, n);
    } else {
      forall a | a in w.configs && Managed(w.configs[a]) && Annotated(w.configs[a], b, model)
        ensures Hit(w, listing, b, n) == Some(a)
      {
        WiringIdentity.FindIsTheMatch(k, w, listing, b, model, a);
        assert a in listing;
      }
    }
  }

  /** Two of the backend's of one model: the annotated one and the one of the derived name. */
  lemma PairOf(k: Kagent, w: World, listing: seq<string>, b: Backend, x: string, y: string) returns (a: string, n: string)
    requires Nameable(k, w, listing, b) && x in listing && y in listing && x != y
    requires OfBackend(w.configs[x], b) && OfBackend(w.configs[y], b) && RefModel(w.configs[x]) == RefModel(w.configs[y])
    ensures (a == x && n == y) || (a == y && n == x)
    ensures Annotation(w.configs[a]) == RefModel(w.configs[x]) && Annotation(w.configs[n]) == "" && n == NameFor(k, w, x)
    ensures Hit(w, listing, b, x) == Some(a)
  {
    HitCases(k, w, listing, b, x);
    HitCases(k, w, listing, b, y);
    if Annotation(w.configs[x]) != "" { a, n := x, y; } else { a, n := y, x; }
  }

  /** Some earlier turn asked for the model. */
  ghost predicate Asked(w: World, listing: seq<string>, b: Backend, i: nat, model: string)
    requires i <= |listing| && forall x :: x in listing ==> x in w.configs
  {
    exists j :: 0 <= j < i && OfBackend(w.configs[listing[j]], b) && RefModel(w.configs[listing[j]]) == model
  }

  /** What the first i turns deleted. */
  ghost predicate Gone(k: Kagent, w: World, listing: seq<string>, b: Backend, i: nat, x: string)
    requires i <= |listing| && forall n :: n in listing ==> n in w.configs
  {
    && Own(k, w, x)
    && if Annotation(w.configs[x]) != "" then BackendMatches(w.configs[x], b) && Asked(w, listing, b, i, Annotation(w.configs[x]))
       else OfBackend(w.configs[x], b) && x in listing[..i] && HitGone(k, w, listing, b, i, Hit(w, listing, b, x))
  }

  ghost predicate HitGone(k: Kagent, w: World, listing: seq<string>, b: Backend, i: nat, hit: Option<string>)
    requires i <= |listing|
  {
    hit.Some? ==> Own(k, w, hit.value) && OfBackend(w.configs[hit.value], b) && hit.value in listing[..i]
  }

  /** The one turn i finds: the plan's, or, when that is gone, the one of the derived name. */
  ghost function TurnTarget(k: Kagent, w: World, listing: seq<string>, b: Backend, i: nat): string
    requires i < |listing| && forall n :: n in listing ==> n in w.configs
  {
    var hit := Hit(w, listing, b, listing[i]);
    if hit.Some? && Gone(k, w, listing, b, i, hit.value) then NameFor(k, w, listing[i]) else PlanTarget(w, listing, b, listing[i])
  }

  /** A turn's target differs from the plan's only for the second of two of one model,
      the first of which this instance created. */
  lemma SecondTurn(k: Kagent, w: World, listing: seq<string>, b: Backend, i: nat) returns (a: string, n: string)
    requires Nameable(k, w, listing, b) && i < |listing| && OfBackend(w.configs[listing[i]], b)
    requires Hit(w, listing, b, listing[i]).Some? && Gone(k, w, listing, b, i, Hit(w, listing, b, listing[i]).value)
    ensures Hit(w, listing, b, listing[i]) == Some(a) && Own(k, w, a) && OfBackend(w.configs[a], b) && a in listing
    ensures n in listing && Twins(w, b, a, n) && TurnTarget(k, w, listing, b, i) == n && Hit(w, listing, b, n) == Some(a)
    ensures a in listing[..i + 1] && n in listing[..i + 1] && (a == listing[i] || n == listing[i])
  {
    HitCases(k, w, listing, b, listing[i]);
    var model := RefModel(w.configs[listing[i]]);
    var j :| 0 <= j < i && OfBackend(w.configs[listing[j]], b) && RefModel(w.configs[listing[j]]) == model;
    a, n := PairOf(k, w, listing, b, listing[i], listing[j]);
    assert listing[..i + 1][j] == listing[j] && listing[..i + 1][i] == listing[i];
  }

  /** Turn i deletes its target when this instance created it, and nothing else. */
  lemma GoneGrows(k: Kagent, w: World, listing: seq<string>, b: Backend, i: nat, x: string)
    requires Nameable(k, w, listing, b) && i < |listing| && OfBackend(w.configs[listing[i]], b) && Own(k, w, x)
    ensures Gone(k, w, listing, b, i + 1, x) <==> Gone(k, w, listing, b, i, x) || x == TurnTarget(k, w, listing, b, i)
  {
    if Annotation(w.configs[x]) != "" { AnnotatedGrows(k, w, listing, b, i, x); } else { NamedGrows(k, w, listing, b, i, x); }
  }

  lemma AnnotatedGrows(k: Kagent, w: World, listing: seq<string>, b: Backend, i: nat, x: string)
    requires Nameable(k, w, listing, b) && i < |listing| && OfBackend(w.configs[listing[i]], b) && Own(k, w, x)
    requires Annotation(w.configs[x]) != ""
    ensures Gone(k, w, listing, b, i + 1, x) <==> Gone(k, w, listing, b, i, x) || x == TurnTarget(k, w, listing, b, i)
  {
    StaysGone(k, w, listing, b, i, x);
    if !Gone(k, w, listing, b, i, x) { AnnotatedGoes(k, w, listing, b, i, x); }
  }

  lemma AskedGrows(w: World, listing: seq<string>, b: Backend, i: nat, model: string)
    requires i < |listing| && (forall x :: x in listing ==> x in w.configs) && OfBackend(w.configs[listing[i]], b)
    ensures Asked(w, listing, b, i + 1, model) <==> Asked(w, listing, b, i, model) || RefModel(w.configs[listing[i]]) == model
  {
  }

  /** The annotated one goes at the first turn that asks for its model. */
  lemma AnnotatedGoes(k: Kagent, w: World, listing: seq<string>, b: Backend, i: nat, x: string)
    requires Nameable(k, w, listing, b) && i < |listing| && OfBackend(w.configs[listing[i]], b) && Own(k, w, x)
    requires Annotation(w.configs[x]) != "" && !Gone(k, w, listing, b, i, x)
    ensures Gone(k, w, listing, b, i + 1, x) <==> x == TurnTarget(k, w, listing, b, i)
  {
    AskedGrows(w, listing, b, i, Annotation(w.configs[x]));
    AnnotatedHit(k, w, listing, b, listing[i], x);
    if Hit(w, listing, b, listing[i]).Some? && Gone(k, w, listing, b, i, Hit(w, listing, b, listing[i]).value) {
      var a, m := SecondTurn(k, w, listing, b, i);
    }
  }

  lemma AnnotatedHit(k: Kagent, w: World, listing: seq<string>, b: Backend, n: string, x: string)
    requires Nameable(k, w, listing, b) && n in listing && OfBackend(w.configs[n], b)
    requires x in w.configs && Managed(w.configs[x]) && Annotation(w.configs[x]) != ""
    ensures PlanTarget(w, listing, b, n) == x <==> Annotated(w.configs[x], b, RefModel(w.configs[n]))
    ensures Annotated(w.configs[x], b, RefModel(w.configs[n])) ==> Hit(w, listing, b, n) == Some(x)
  {
    HitCases(k, w, listing, b, n);
    if Annotated(w.configs[x], b, RefModel(w.configs[n])) {
      WiringIdentity.FindIsTheMatch(k, w, listing, b, RefModel(w.configs[n]), x);
    }
  }

  lemma NamedGrows(k: Kagent, w: World, listing: seq<string>, b: Backend, i: nat, x: string)
    requires Nameable(k, w, listing, b) && i < |listing| && OfBackend(w.configs[listing[i]], b) && Own(k, w, x)
    requires Annotation(w.configs[x]) == ""
    ensures Gone(k, w, listing, b, i + 1, x) <==> Gone(k, w, listing, b, i, x) || x == TurnTarget(k, w, listing, b, i)
  {
    StaysGone(k, w, listing, b, i, x);
    if x == TurnTarget(k, w, listing, b, i) { TargetGoes(k, w, listing, b, i, x); }
    if Gone(k, w, listing, b, i + 1, x) && !Gone(k, w, listing, b, i, x) { LastOfTwo(k, w, listing, b, i, x); }
  }

  lemma StaysGone(k: Kagent, w: World, listing: seq<string>, b: Backend, i: nat, x: string)
    requires Listing(w, listing) && i < |listing|
    ensures Gone(k, w, listing, b, i, x) ==> Gone(k, w, listing, b, i + 1, x)
  {
    assert listing[..i + 1] == listing[..i] + [listing[i]];
  }

  lemma TargetGoes(k: Kagent, w: World, listing: seq<string>, b: Backend, i: nat, x: string)
    requires Nameable(k, w, listing, b) && i < |listing| && OfBackend(w.configs[listing[i]], b) && Own(k, w, x)
    requires Annotation(w.configs[x]) == "" && x == TurnTarget(k, w, listing, b, i)
    ensures Gone(k, w, listing, b, i + 1, x)
  {
    var n := listing[i];
    HitCases(k, w, listing, b, n);
    assert listing[..i + 1][i] == n;
    if Hit(w, listing, b, n).Some? && Gone(k, w, listing, b, i, Hit(w, listing, b, n).value) {
      var a, m := SecondTurn(k, w, listing, b, i);
    }
  }

  /** Turn i takes x off: it is the only one of its model, or the second of two. */
  lemma LastOfTwo(k: Kagent, w: World, listing: seq<string>, b: Backend, i: nat, x: string)
    requires Nameable(k, w, listing, b) && i < |listing| && OfBackend(w.configs[listing[i]], b) && Own(k, w, x)
    requires Annotation(w.configs[x]) == "" && Gone(k, w, listing, b, i + 1, x) && !Gone(k, w, listing, b, i, x)
    ensures x == TurnTarget(k, w, listing, b, i)
  {
    var hit := Hit(w, listing, b, x);
    NewInPrefix(listing, i, x, hit);
    if hit.Some? { SecondOfTwo(k, w, listing, b, i, hit.value, x); }
  }

  lemma NewInPrefix(listing: seq<string>, i: nat, x: string, hit: Option<string>)
    requires i < |listing|
    requires x in listing[..i + 1] && (hit.Some? ==> hit.value in listing[..i + 1])
    requires !(x in listing[..i] && (hit.Some? ==> hit.value in listing[..i]))
    ensures hit.None? ==> x == listing[i]
    ensures hit.Some? && hit.value != x ==> (hit.value == listing[i] && x in listing[..i]) || (x == listing[i] && hit.value in listing[..i])
  {
    assert listing[..i + 1] == listing[..i] + [listing[i]];
  }

  lemma SecondOfTwo(k: Kagent, w: World, listing: seq<string>, b: Backend, i: nat, a: string, x: string)
    requires Nameable(k, w, listing, b) && i < |listing| && x in listing && OfBackend(w.configs[x], b)
    requires Annotation(w.configs[x]) == "" && Hit(w, listing, b, x) == Some(a) && Own(k, w, a) && OfBackend(w.configs[a], b)
    requires a != x ==> (a == listing[i] && x in listing[..i]) || (x == listing[i] && a in listing[..i])
    ensures x == TurnTarget(k, w, listing, b, i)
  {
    HitCases(k, w, listing, b, x);
    var j :| 0 <= j < i && listing[j] == if x == listing[i] then a else x;
    assert Asked(w, listing, b, i, Annotation(w.configs[a]));
  }

  // ------------------------------------------------------------ the loop

  /** The cluster after i turns. */
  ghost predicate After(k: Kagent, w: World, listing: seq<string>, b: Backend, i: nat, now: World)
    requires Listing(w, listing) && i <= |listing|
  {
    && Left(w, listing, now)
    && forall x :: x in w.configs ==> (x !in now.configs <==> Gone(k, w, listing, b, i, x))
  }

  lemma TurnFinds(k: Kagent, w: World, listing: seq<string>, b: Backend, i: nat, now: World)
    requires Nameable(k, w, listing, b) && i < |listing| && OfBackend(w.configs[listing[i]], b) && After(k, w, listing, b, i, now)
    ensures var t := TurnTarget(k, w, listing, b, i);
            && t in now.configs && Managed(now.configs[t])
            && Find(k, now, Remaining(now.configs, listing), b, RefModel(w.configs[listing[i]])) == Some(t)
  {
    var n := listing[i];
    HitCases(k, w, listing, b, n);
    var hit := Hit(w, listing, b, n);
    if hit.Some? && Gone(k, w, listing, b, i, hit.value) {
      var a, m := SecondTurn(k, w, listing, b, i);
      SecondStays(k, w, listing, b, i, a, m);
      NoneAnnotated(k, w, listing, b, n, a, now);
    } else if hit.Some? {
      FirstAfterDrop(w.configs, now.configs, listing, b, RefModel(w.configs[n]), hit.value);
    } else {
      assert !Gone(k, w, listing, b, i, n) by { assert n !in listing[..i]; }
      FirstAfterDrop(w.configs, now.configs, listing, b, RefModel(w.configs[n]), n);
    }
  }

  lemma SecondStays(k: Kagent, w: World, listing: seq<string>, b: Backend, i: nat, a: string, n: string)
    requires Listing(w, listing) && i < |listing| && a in w.configs && n in w.configs
    requires (a == listing[i] || n == listing[i]) && Twins(w, b, a, n) && Hit(w, listing, b, n) == Some(a)
    ensures !Gone(k, w, listing, b, i, n)
  {
    assert listing[i] !in listing[..i];
  }

  /** With the one annotated gone, none is. */
  lemma NoneAnnotated(k: Kagent, w: World, listing: seq<string>, b: Backend, n: string, a: string, now: World)
    requires Nameable(k, w, listing, b) && n in listing && OfBackend(w.configs[n], b)
    requires Hit(w, listing, b, n) == Some(a) && Left(w, listing, now) && a !in now.configs
    ensures FirstAnnotated(now.configs, Remaining(now.configs, listing), b, RefModel(w.configs[n])).None?
  {
    var model := RefModel(w.configs[n]);
    var hit := FirstAnnotated(now.configs, Remaining(now.configs, listing), b, model);
    if hit.Some? {
      WiringIdentity.FindIsTheMatch(k, w, listing, b, model, hit.value);
    }
  }

  /** A turn is taken for the backend's only. */
  lemma SkippedGrows(k: Kagent, w: World, listing: seq<string>, b: Backend, i: nat, now: World)
    requires Listing(w, listing) && i < |listing| && !OfBackend(w.configs[listing[i]], b) && After(k, w, listing, b, i, now)
    ensures After(k, w, listing, b, i + 1, now)
  {
    forall x | x in w.configs ensures Gone(k, w, listing, b, i + 1, x) <==> Gone(k, w, listing, b, i, x) {
      SkippedGoes(k, w, listing, b, i, x);
    }
  }

  lemma SkippedGoes(k: Kagent, w: World, listing: seq<string>, b: Backend, i: nat, x: string)
    requires Listing(w, listing) && i < |listing| && !OfBackend(w.configs[listing[i]], b) && x in w.configs
    ensures Gone(k, w, listing, b, i + 1, x) <==> Gone(k, w, listing, b, i, x)
  {
    assert listing[..i + 1] == listing[..i] + [listing[i]];
    if Annotation(w.configs[x]) == "" {
      assert x in listing[..i + 1] && OfBackend(w.configs[x], b) ==> x in listing[..i];
    }
  }

  /** Turn i on a target no Flux object applies. */
  lemma OneTurn(k: Kagent, w: World, listing: seq<string>, b: Backend, i: nat, now: World, rest: seq<string>) returns (next: World)
    requires Nameable(k, w, listing, b) && i < |listing| && OfBackend(w.configs[listing[i]], b) && After(k, w, listing, b, i, now)
    requires TurnClear(k, w, listing, b, i)
    ensures After(k, w, listing, b, i + 1, next)
    ensures var model := RefModel(w.configs[listing[i]]);
            var u := Unwire(k, next, Remaining(next.configs, listing), rest, b);
            Unwire(k, now, Remaining(now.configs, listing), [model] + rest, b)
              == if Removes(k, w, listing, b, i) then u.(removed := [model] + u.removed) else u
  {
    TurnFinds(k, w, listing, b, i, now);
    var model, t := RefModel(w.configs[listing[i]]), TurnTarget(k, w, listing, b, i);
    next := TurnDone(k, w, listing, now, model, t, rest, b);
    TurnDeletes(k, w, listing, b, i, now, next);
  }

  /** The turn of the loop that finds t. */
  lemma TurnDone(k: Kagent, w: World, listing: seq<string>, now: World, model: string, t: string, rest: seq<string>, b: Backend)
    returns (next: World)
    requires Listing(w, listing) && Left(w, listing, now) && t in now.configs && Applied(k, w, t).None?
    requires Find(k, now, Remaining(now.configs, listing), b, model) == Some(t)
    ensures Left(w, listing, next)
    ensures next.configs == if Own(k, w, t) then now.configs - {t} else now.configs
    ensures var u := Unwire(k, next, Remaining(next.configs, listing), rest, b);
            Unwire(k, now, Remaining(now.configs, listing), [model] + rest, b)
              == if Own(k, w, t) then u.(removed := [model] + u.removed) else u
  {
    var left := Remaining(now.configs, listing);
    next := RemoveTurn(k, now, left, b, model, t);
    RemainingTwice(now.configs, next.configs, listing);
    UnwireUnrolls(k, now, left, model, rest, b);
  }

  lemma TurnDeletes(k: Kagent, w: World, listing: seq<string>, b: Backend, i: nat, now: World, next: World)
    requires Nameable(k, w, listing, b) && i < |listing| && OfBackend(w.configs[listing[i]], b) && After(k, w, listing, b, i, now)
    requires Left(w, listing, next)
    requires var t := TurnTarget(k, w, listing, b, i); next.configs == if Own(k, w, t) then now.configs - {t} else now.configs
    ensures After(k, w, listing, b, i + 1, next)
  {
    forall x | x in w.configs ensures x !in next.configs <==> Gone(k, w, listing, b, i + 1, x) {
      TurnDeletesOne(k, w, listing, b, i, TurnTarget(k, w, listing, b, i), x, x in now.configs, x in next.configs);
    }
  }

  lemma TurnDeletesOne(k: Kagent, w: World, listing: seq<string>, b: Backend, i: nat, t: string, x: string, was: bool, stays: bool)
    requires Nameable(k, w, listing, b) && i < |listing| && OfBackend(w.configs[listing[i]], b) && x in w.configs
    requires t == TurnTarget(k, w, listing, b, i)
    requires (!was <==> Gone(k, w, listing, b, i, x)) && (stays <==> was && !(Own(k, w, x) && x == t))
    ensures !stays <==> Gone(k, w, listing, b, i + 1, x)
  {
    if Own(k, w, x) { GoneGrows(k, w, listing, b, i, x); }
  }

  /** Turn i on a target that a Flux object applies ends the loop. */
  lemma LastTurn(k: Kagent, w: World, listing: seq<string>, b: Backend, i: nat, now: World, rest: seq<string>)
    requires Nameable(k, w, listing, b) && i < |listing| && OfBackend(w.configs[listing[i]], b) && After(k, w, listing, b, i, now)
    requires !TurnClear(k, w, listing, b, i)
    ensures Unwire(k, now, Remaining(now.configs, listing), [RefModel(w.configs[listing[i]])] + rest, b).failed.Some?
  {
    TurnFinds(k, w, listing, b, i, now);
  }

  /** Turn i deletes its target. */
  ghost predicate Removes(k: Kagent, w: World, listing: seq<string>, b: Backend, i: nat)
    requires i < |listing| && forall n :: n in listing ==> n in w.configs
  {
    OfBackend(w.configs[listing[i]], b) && Own(k, w, TurnTarget(k, w, listing, b, i))
  }

  /** No Flux object applies what turn j finds. */
  ghost predicate TurnClear(k: Kagent, w: World, listing: seq<string>, b: Backend, j: nat)
    requires j < |listing| && forall n :: n in listing ==> n in w.configs
  {
    var t := TurnTarget(k, w, listing, b, j);
    OfBackend(w.configs[listing[j]], b) && t in w.configs ==> Applied(k, w, t).None?
  }

  ghost predicate ClearFrom(k: Kagent, w: World, listing: seq<string>, b: Backend, i: nat)
    requires forall n :: n in listing ==> n in w.configs
  {
    forall j :: i <= j < |listing| ==> TurnClear(k, w, listing, b, j)
  }

  /** The models the turns from i on remove. */
  ghost function Removed(k: Kagent, w: World, listing: seq<string>, b: Backend, i: nat): seq<string>
    requires i <= |listing| && forall n :: n in listing ==> n in w.configs
    decreases |listing| - i
  {
    if i == |listing| then []
    else (if Removes(k, w, listing, b, i) then [RefModel(w.configs[listing[i]])] else []) + Removed(k, w, listing, b, i + 1)
  }

  lemma ModelsFrom(w: World, listing: seq<string>, b: Backend, i: nat)
    requires i < |listing| && forall n :: n in listing ==> n in w.configs
    ensures ModelsOf(w, listing[i..], b)
         == (if OfBackend(w.configs[listing[i]], b) then [RefModel(w.configs[listing[i]])] else []) + ModelsOf(w, listing[i + 1..], b)
  {
    assert listing[i..][0] == listing[i] && listing[i..][1..] == listing[i + 1..];
  }

  /** The loop from turn i on ends without a refusal but NotOwned exactly when no Flux object
      applies what its turns find, and then it took off what they delete. */
  ghost predicate Comes(k: Kagent, w: World, listing: seq<string>, b: Backend, i: nat, u: Unwired)
    requires Listing(w, listing) && i <= |listing|
  {
    && (u.failed.None? <==> ClearFrom(k, w, listing, b, i))
    && (u.failed.None? ==> After(k, w, listing, b, |listing|, u.after) && u.removed == Removed(k, w, listing, b, i))
  }

  lemma {:induction false} Outcome(k: Kagent, w: World, listing: seq<string>, b: Backend, i: nat, now: World,
                                   left: seq<string>, models: seq<string>) returns (u: Unwired)
    requires Nameable(k, w, listing, b) && i <= |listing| && After(k, w, listing, b, i, now)
    requires left == Remaining(now.configs, listing) && models == ModelsOf(w, listing[i..], b)
    ensures u == Unwire(k, now, left, models, b) && Comes(k, w, listing, b, i, u)
    decreases |listing| - i
  {
    if i == |listing| {
      u := Unwired(now, [], None);
    } else {
      var rest := ModelsOf(w, listing[i + 1..], b);
      ModelsFrom(w, listing, b, i);
      if !OfBackend(w.configs[listing[i]], b) {
        SkippedGrows(k, w, listing, b, i, now);
        u := Outcome(k, w, listing, b, i + 1, now, left, models);
        TurnComes(k, w, listing, b, i, u, u);
      } else if TurnClear(k, w, listing, b, i) {
        var next := OneTurn(k, w, listing, b, i, now, rest);
        var u' := Outcome(k, w, listing, b, i + 1, next, Remaining(next.configs, listing), rest);
        u := if Removes(k, w, listing, b, i) then u'.(removed := [RefModel(w.configs[listing[i]])] + u'.removed) else u';
        TurnComes(k, w, listing, b, i, u', u);
      } else {
        LastTurn(k, w, listing, b, i, now, rest);
        u := Unwire(k, now, left, models, b);
      }
    }
  }

  lemma TurnComes(k: Kagent, w: World, listing: seq<string>, b: Backend, i: nat, u': Unwired, u: Unwired)
    requires Listing(w, listing) && i < |listing| && TurnClear(k, w, listing, b, i) && Comes(k, w, listing, b, i + 1, u')
    requires u == if Removes(k, w, listing, b, i) then u'.(removed := [RefModel(w.configs[listing[i]])] + u'.removed) else u'
    ensures Comes(k, w, listing, b, i, u)
  {
  }

  // ------------------------------------------------------------ the plan

  /** The plan lists the model of listing[i]. */
  predicate Plans(k: Kagent, w: World, listing: seq<string>, b: Backend, i: nat)
    requires i < |listing| && forall n :: n in listing ==> n in w.configs
  {
    OfBackend(w.configs[listing[i]], b) && Own(k, w, PlanTarget(w, listing, b, listing[i]))
  }

  /** The models the plan lists from i on. */
  function Planned(k: Kagent, w: World, listing: seq<string>, b: Backend, i: nat): seq<string>
    requires i <= |listing| && forall n :: n in listing ==> n in w.configs
    decreases |listing| - i
  {
    if i == |listing| then []
    else (if Plans(k, w, listing, b, i) then [RefModel(w.configs[listing[i]])] else []) + Planned(k, w, listing, b, i + 1)
  }

  /** What an unblocked plan says of the target of each of the backend's. */
  predicate Unblocked(k: Kagent, w: World, listing: seq<string>, b: Backend, n: string)
    requires n in w.configs && forall x :: x in listing ==> x in w.configs
  {
    var t := PlanTarget(w, listing, b, n);
    OfBackend(w.configs[n], b) && t in w.configs ==> Applied(k, w, t).None? && (Own(k, w, t) || Creator(w.configs[t]) != "")
  }

  lemma {:induction false} PlanIs(k: Kagent, w: World, listing: seq<string>, b: Backend, i: nat)
    requires Nameable(k, w, listing, b) && i <= |listing|
    requires PlanRemoval(k, w, listing, listing[i..], b).blocking == []
    ensures PlanRemoval(k, w, listing, listing[i..], b).unwires == Planned(k, w, listing, b, i)
    ensures forall j :: i <= j < |listing| ==> Unblocked(k, w, listing, b, listing[j])
    decreases |listing| - i
  {
    if i < |listing| {
      assert listing[i..][0] == listing[i] && listing[i..][1..] == listing[i + 1..];
      if OfBackend(w.configs[listing[i]], b) { HitCases(k, w, listing, b, listing[i]); }
      PlanIs(k, w, listing, b, i + 1);
    }
  }

  /** A turn removes no model the plan does not list. */
  lemma RemovesIsPlanned(k: Kagent, w: World, listing: seq<string>, b: Backend, i: nat)
    requires Nameable(k, w, listing, b) && i < |listing|
    ensures Removes(k, w, listing, b, i) ==> Plans(k, w, listing, b, i)
  {
    if Removes(k, w, listing, b, i) {
      var hit := Hit(w, listing, b, listing[i]);
      if hit.Some? && Gone(k, w, listing, b, i, hit.value) {
        var a, n := SecondTurn(k, w, listing, b, i);
      }
    }
  }

  /** The loop removes the models the plan lists exactly when every turn does. */
  lemma {:induction false} RemovedArePlanned(k: Kagent, w: World, listing: seq<string>, b: Backend, i: nat)
    requires Nameable(k, w, listing, b) && i <= |listing|
    ensures |Removed(k, w, listing, b, i)| <= |Planned(k, w, listing, b, i)|
    ensures Removed(k, w, listing, b, i) == Planned(k, w, listing, b, i) <==> AsPlannedFrom(k, w, listing, b, i)
    decreases |listing| - i
  {
    if i < |listing| {
      RemovedArePlanned(k, w, listing, b, i + 1);
      RemovesIsPlanned(k, w, listing, b, i);
      OneMore(Removes(k, w, listing, b, i), Plans(k, w, listing, b, i), RefModel(w.configs[listing[i]]),
              Removed(k, w, listing, b, i + 1), Planned(k, w, listing, b, i + 1));
      assert AsPlannedFrom(k, w, listing, b, i)
        <==> (Plans(k, w, listing, b, i) ==> Removes(k, w, listing, b, i)) && AsPlannedFrom(k, w, listing, b, i + 1);
    }
  }

  lemma OneMore(removes: bool, plans: bool, model: string, removed: seq<string>, planned: seq<string>)
    requires (removes ==> plans) && |removed| <= |planned|
    ensures var r, p := (if removes then [model] else []) + removed, (if plans then [model] else []) + planned;
            |r| <= |p| && (r == p <==> (plans ==> removes) && removed == planned)
  {
    assert [] + removed == removed && [] + planned == planned;
    assert ([model] + removed)[1..] == removed && ([model] + planned)[1..] == planned;
  }

  ghost predicate AsPlannedFrom(k: Kagent, w: World, listing: seq<string>, b: Backend, i: nat)
    requires forall n :: n in listing ==> n in w.configs
  {
    forall j :: i <= j < |listing| ==> Plans(k, w, listing, b, j) ==> Removes(k, w, listing, b, j)
  }

  // ------------------------------------------------------------ plan and loop

  /** The turns deleted those of the backend this instance created. */
  ghost predicate OwnAreGone(k: Kagent, w: World, listing: seq<string>, b: Backend)
    requires Listing(w, listing)
  {
    forall x :: x in w.configs ==> (Gone(k, w, listing, b, |listing|, x) <==> Own(k, w, x) && OfBackend(w.configs[x], b))
  }

  ghost predicate OthersHaveCreators(k: Kagent, w: World, b: Backend) {
    forall x :: x in w.configs && Managed(w.configs[x]) && OfBackend(w.configs[x], b) && !Own(k, w, x) ==> Creator(w.configs[x]) != ""
  }

  lemma AsPlannedInParts(k: Kagent, w: World, listing: seq<string>, b: Backend)
    requires Nameable(k, w, listing, b) && PlanRemoval(k, w, listing, listing, b).blocking == []
    ensures AsPlanned(k, w, listing, b)
       <==> ClearFrom(k, w, listing, b, 0) && AsPlannedFrom(k, w, listing, b, 0) && OwnAreGone(k, w, listing, b) && OthersHaveCreators(k, w, b)
  {
    RemainingAll(w.configs, listing);
    assert listing[0..] == listing;
    PlanIs(k, w, listing, b, 0);
    RemovedArePlanned(k, w, listing, b, 0);
    var u := Outcome(k, w, listing, b, 0, w, listing, ModelsOf(w, listing, b));
    if u.failed.None? { WhatIsLeft(k, w, listing, b, u.after); }
  }

  lemma WhatIsLeft(k: Kagent, w: World, listing: seq<string>, b: Backend, after: World)
    requires Listing(w, listing) && After(k, w, listing, b, |listing|, after)
    ensures after.configs == w.configs - OwnOf(k, w, listing, b) <==> OwnAreGone(k, w, listing, b)
    ensures OwnAreGone(k, w, listing, b) ==> (OthersAreLeft(k, after.configs, b) <==> OthersHaveCreators(k, w, b))
  {
    OwnMembers(k, w, listing, b);
    assert forall x :: x in OwnOf(k, w, listing, b) <==> Own(k, w, x) && OfBackend(w.configs[x], b);
    KeysDecide(w.configs, after.configs, OwnOf(k, w, listing, b));
  }

  lemma KeysDecide(configs: map<string, Config>, after: map<string, Config>, gone: set<string>)
    requires forall n :: n in after ==> n in configs && after[n] == configs[n]
    ensures after == configs - gone <==> forall n :: n in configs ==> (n !in after <==> n in gone)
  {
    if forall n :: n in configs ==> (n !in after <==> n in gone) { assert after.Keys == (configs - gone).Keys; }
  }

  /** After all turns. */
  lemma GoneAtEnd(k: Kagent, w: World, listing: seq<string>, b: Backend, x: string)
    requires Nameable(k, w, listing, b) && Own(k, w, x)
    ensures OfBackend(w.configs[x], b) && Annotation(w.configs[x]) != "" ==> Gone(k, w, listing, b, |listing|, x)
    ensures OfBackend(w.configs[x], b) && Annotation(w.configs[x]) == "" ==>
              (Gone(k, w, listing, b, |listing|, x) <==>
               forall a :: a in w.configs && Twins(w, b, a, x) ==> Own(k, w, a) && OfBackend(w.configs[a], b))
    ensures !OfBackend(w.configs[x], b) && Gone(k, w, listing, b, |listing|, x) ==>
              exists n :: n in w.configs && Twins(w, b, x, n)
    ensures forall n :: n in w.configs && Twins(w, b, x, n) ==> Gone(k, w, listing, b, |listing|, x)
  {
    assert listing[..|listing|] == listing && x in listing;
    if OfBackend(w.configs[x], b) {
      HitCases(k, w, listing, b, x);
      var j :| 0 <= j < |listing| && listing[j] == x;
    } else if Gone(k, w, listing, b, |listing|, x) {
      var j :| 0 <= j < |listing| && OfBackend(w.configs[listing[j]], b) && RefModel(w.configs[listing[j]]) == Annotation(w.configs[x]);
      HitCases(k, w, listing, b, listing[j]);
      assert Twins(w, b, x, listing[j]);
    }
    forall n | n in w.configs && Twins(w, b, x, n) ensures Gone(k, w, listing, b, |listing|, x) {
      assert n in listing;
      var j :| 0 <= j < |listing| && listing[j] == n;
      assert Asked(w, listing, b, |listing|, Annotation(w.configs[x]));
    }
  }

  /** Turn j finds what the plan does, or the second of two of one model. */
  lemma TurnAgrees(k: Kagent, w: World, listing: seq<string>, b: Backend, j: nat)
    requires Nameable(k, w, listing, b) && j < |listing| && Unblocked(k, w, listing, b, listing[j]) && TwinsAgree(k, w, b)
    ensures TurnClear(k, w, listing, b, j) && (Plans(k, w, listing, b, j) ==> Removes(k, w, listing, b, j))
  {
    var hit := Hit(w, listing, b, listing[j]);
    if OfBackend(w.configs[listing[j]], b) && hit.Some? && Gone(k, w, listing, b, j, hit.value) {
      var a, n := SecondTurn(k, w, listing, b, j);
      assert Agree(k, w, b, a, n);
    }
  }

  lemma OwnGoTogether(k: Kagent, w: World, listing: seq<string>, b: Backend, x: string)
    requires Nameable(k, w, listing, b) && TwinsAgree(k, w, b) && Own(k, w, x)
    ensures Gone(k, w, listing, b, |listing|, x) <==> OfBackend(w.configs[x], b)
  {
    GoneAtEnd(k, w, listing, b, x);
    forall a | a in w.configs && Twins(w, b, a, x) ensures Own(k, w, a) && OfBackend(w.configs[a], b) {
      assert Agree(k, w, b, a, x);
    }
    forall n | n in w.configs && Twins(w, b, x, n) ensures OfBackend(w.configs[x], b) {
      assert Agree(k, w, b, x, n);
    }
  }

  lemma OthersStay(k: Kagent, w: World, listing: seq<string>, b: Backend, x: string)
    requires Nameable(k, w, listing, b) && TwinsAgree(k, w, b)
    requires x in listing && OfBackend(w.configs[x], b) && !Own(k, w, x) && Unblocked(k, w, listing, b, x)
    ensures Creator(w.configs[x]) != ""
  {
    HitCases(k, w, listing, b, x);
    if Annotation(w.configs[x]) == "" && Hit(w, listing, b, x).Some? {
      assert Agree(k, w, b, Hit(w, listing, b, x).value, x);
    }
  }

  lemma AgreeIsEnough(k: Kagent, w: World, listing: seq<string>, b: Backend)
    requires Nameable(k, w, listing, b) && PlanRemoval(k, w, listing, listing, b).blocking == [] && TwinsAgree(k, w, b)
    ensures AsPlanned(k, w, listing, b)
  {
    assert listing[0..] == listing;
    PlanIs(k, w, listing, b, 0);
    forall j | 0 <= j < |listing| ensures TurnClear(k, w, listing, b, j) && (Plans(k, w, listing, b, j) ==> Removes(k, w, listing, b, j)) {
      TurnAgrees(k, w, listing, b, j);
    }
    forall x | Own(k, w, x) ensures Gone(k, w, listing, b, |listing|, x) <==> OfBackend(w.configs[x], b) {
      OwnGoTogether(k, w, listing, b, x);
    }
    forall x | x in listing && OfBackend(w.configs[x], b) && !Own(k, w, x) ensures Creator(w.configs[x]) != "" {
      var j :| 0 <= j < |listing| && listing[j] == x;
      OthersStay(k, w, listing, b, listing[j]);
    }
    AsPlannedInParts(k, w, listing, b);
  }

  /** The turn that is the second of twins finds the one not annotated. */
  lemma TheSecondTurn(k: Kagent, w: World, listing: seq<string>, b: Backend, a: string, n: string) returns (j: nat)
    requires Nameable(k, w, listing, b) && a in w.configs && n in w.configs && Twins(w, b, a, n)
    requires Own(k, w, a) && OfBackend(w.configs[a], b)
    ensures j < |listing| && OfBackend(w.configs[listing[j]], b)
    ensures TurnTarget(k, w, listing, b, j) == n && PlanTarget(w, listing, b, listing[j]) == a
  {
    assert a in listing && n in listing;
    var x :| 0 <= x < |listing| && listing[x] == a;
    var y :| 0 <= y < |listing| && listing[y] == n;
    HitCases(k, w, listing, b, n);
    if x < y {
      FirstIsGone(k, w, listing, b, x, y, a);
      j := y;
    } else {
      FirstIsGone(k, w, listing, b, y, x, a);
      j := x;
    }
  }

  lemma FirstIsGone(k: Kagent, w: World, listing: seq<string>, b: Backend, i: nat, j: nat, a: string)
    requires Listing(w, listing) && i < j < |listing| && Own(k, w, a) && OfBackend(w.configs[a], b) && Annotation(w.configs[a]) != ""
    requires OfBackend(w.configs[listing[i]], b) && RefModel(w.configs[listing[i]]) == Annotation(w.configs[a])
    ensures Gone(k, w, listing, b, j, a)
  {
  }

  lemma AgreeIsNeeded(k: Kagent, w: World, listing: seq<string>, b: Backend, a: string, n: string)
    requires Nameable(k, w, listing, b) && a in w.configs && n in w.configs && Twins(w, b, a, n)
    requires ClearFrom(k, w, listing, b, 0) && AsPlannedFrom(k, w, listing, b, 0)
    requires OwnAreGone(k, w, listing, b) && OthersHaveCreators(k, w, b)
    ensures Agree(k, w, b, a, n)
  {
    if Own(k, w, a) {
      GoneAtEnd(k, w, listing, b, a);
      var j := TheSecondTurn(k, w, listing, b, a, n);
      assert TurnClear(k, w, listing, b, j) && Plans(k, w, listing, b, j);
    } else if Own(k, w, n) {
      GoneAtEnd(k, w, listing, b, n);
    }
  }

  /** An unblocked PlanBackendRemoval lists exactly what UnwireBackend removes, the backend's
      ModelConfigs this instance created, exactly when, of each two ModelConfigs find answers
      for one model, both are this instance's and go or both are other instances'. */
  lemma PlannedIsUnwired(k: Kagent, w: World, listing: seq<string>, b: Backend)
    requires Nameable(k, w, listing, b) && PlanRemoval(k, w, listing, listing, b).blocking == []
    ensures AsPlanned(k, w, listing, b) <==> TwinsAgree(k, w, b)
  {
    if TwinsAgree(k, w, b) {
      AgreeIsEnough(k, w, listing, b);
    } else if AsPlanned(k, w, listing, b) {
      AsPlannedInParts(k, w, listing, b);
      forall a, n | a in w.configs && n in w.configs && Twins(w, b, a, n) ensures Agree(k, w, b, a, n) {
        AgreeIsNeeded(k, w, listing, b, a, n);
      }
    }
  }

  /** Named each by its model, there are no two of one. */
  lemma NamedIsUnwired(k: Kagent, w: World, listing: seq<string>, b: Backend)
    requires Listing(w, listing) && WiringIdentity.Unique(w.configs) && b != ""
    requires forall n :: n in listing && OfBackend(w.configs[n], b) ==> NamedByModel(k, w, b, n)
    requires PlanRemoval(k, w, listing, listing, b).blocking == []
    ensures AsPlanned(k, w, listing, b)
  {
    assert forall n :: n in w.configs && Managed(w.configs[n]) && OfBackend(w.configs[n], b) ==> NamedByModel(k, w, b, n);
    assert TwinsAgree(k, w, b);
    PlannedIsUnwired(k, w, listing, b);
  }

  // ------------------------------------------------------------ where they differ

  function Sample(annotations: Labels, creator: string): Config {
    Config(map[MANAGED_BY := MANAGED_VALUE, INSTANCE := creator, BACKEND := "x"], annotations,
           Spec("OpenAI", "m", "", "", 0, None, false, "", ""), 0, 0)
  }

  lemma SampleLabels(annotations: Labels, creator: string)
    ensures var c := Sample(annotations, creator);
            Managed(c) && Creator(c) == creator && Get(c.labels, BACKEND) == "x" && OwnerOf(c.labels).None?
  {
    assert |MANAGED_BY| != |INSTANCE| && |MANAGED_BY| != |BACKEND| && |INSTANCE| != |BACKEND|;
    var c := Sample(annotations, creator);
    WiringIdentity.WirerLabelsAreNotFlux(map[], c.labels);
    assert map[] + c.labels == c.labels;
  }

  function SampleWorld(): World {
    World(map["a" := Sample(map[MODEL := "m"], "i"), "m" := Sample(map[], "j")], map[], map[], [], 1)
  }

  lemma SampleName(fnv: string -> nat)
    ensures Names.Derived("", "m", fnv) == "m"
  {
    Names.RawFixed("m");
    Names.DashedFixed("m", true);
  }

  lemma TwinsAreNameable(k: Kagent, w: World, b: Backend, a: string, n: string)
    requires w.configs.Keys == {a, n} && a != n && Twins(w, b, a, n) && Managed(w.configs[a]) && b != "" && NameFor(k, w, n) == n
    ensures Nameable(k, w, [a, n], b)
  {
  }

  lemma SampleIsNameable(fnv: string -> nat)
    ensures Nameable(WiringIdentity.SampleKagent(fnv), SampleWorld(), ["a", "m"], "x")
  {
    SampleLabels(map[MODEL := "m"], "i");
    SampleLabels(map[], "j");
    SampleName(fnv);
    TwinsAreNameable(WiringIdentity.SampleKagent(fnv), SampleWorld(), "x", "a", "m");
  }

  /** Of twins only the first is this instance's: the plan lists their model twice and the
      loop removes it once. */
  lemma TwiceOrOnce(k: Kagent, w: World, b: Backend, a: string, n: string)
    requires Nameable(k, w, [a, n], b) && w.configs.Keys == {a, n} && Twins(w, b, a, n) && OfBackend(w.configs[a], b)
    requires Own(k, w, a) && Applied(k, w, a).None? && !Own(k, w, n) && Creator(w.configs[n]) != "" && Applied(k, w, n).None?
    ensures var model := RefModel(w.configs[n]);
            && PlanRemoval(k, w, [a, n], [a, n], b) == BackendRemoval([model, model], [])
            && var u := Unwire(k, w, [a, n], ModelsOf(w, [a, n], b), b);
               u.failed.None? && u.removed == [model] && u.after.configs == w.configs - {a}
  {
    PlanOfTwins(k, w, [a, n], b, a, n);
    UnwireOfTwins(k, w, [a, n], b, a, n);
  }

  lemma UnwireOfTwins(k: Kagent, w: World, listing: seq<string>, b: Backend, a: string, n: string)
    requires Nameable(k, w, listing, b) && listing == [a, n] && w.configs.Keys == {a, n} && Twins(w, b, a, n) && OfBackend(w.configs[a], b)
    requires Own(k, w, a) && Applied(k, w, a).None? && !Own(k, w, n) && Applied(k, w, n).None?
    ensures var u := Unwire(k, w, listing, ModelsOf(w, listing, b), b);
            u.failed.None? && u.removed == [RefModel(w.configs[n])] && u.after.configs == w.configs - {a}
  {
    TurnsOfTwins(k, w, listing, b, a, n);
    RemainingAll(w.configs, listing);
    assert listing[0..] == listing;
    var u := Outcome(k, w, listing, b, 0, w, listing, ModelsOf(w, listing, b));
    GoneOfTwins(k, w, listing, b, a, n);
    KeysDecide(w.configs, u.after.configs, {a});
  }

  lemma PlanOfTwins(k: Kagent, w: World, listing: seq<string>, b: Backend, a: string, n: string)
    requires Nameable(k, w, listing, b) && listing == [a, n] && Twins(w, b, a, n) && OfBackend(w.configs[a], b)
    requires Own(k, w, a) && Applied(k, w, a).None?
    ensures PlanRemoval(k, w, listing, listing, b) == BackendRemoval([RefModel(w.configs[n]), RefModel(w.configs[n])], [])
  {
    HitCases(k, w, listing, b, a);
    assert listing[1..] == [n] && listing[1..][1..] == [];
    assert PlanRemoval(k, w, listing, [n], b) == BackendRemoval([RefModel(w.configs[n])], []);
  }

  lemma TurnsOfTwins(k: Kagent, w: World, listing: seq<string>, b: Backend, a: string, n: string)
    requires Nameable(k, w, listing, b) && listing == [a, n] && Twins(w, b, a, n) && OfBackend(w.configs[a], b)
    requires Own(k, w, a) && Applied(k, w, a).None? && !Own(k, w, n) && Applied(k, w, n).None?
    ensures ClearFrom(k, w, listing, b, 0) && Removed(k, w, listing, b, 0) == [RefModel(w.configs[n])]
  {
    HitCases(k, w, listing, b, a);
    HitCases(k, w, listing, b, n);
    assert TurnTarget(k, w, listing, b, 0) == a;
    FirstIsGone(k, w, listing, b, 0, 1, a);
    assert TurnTarget(k, w, listing, b, 1) == n;
    assert Removed(k, w, listing, b, 1) == [];
  }

  lemma GoneOfTwins(k: Kagent, w: World, listing: seq<string>, b: Backend, a: string, n: string)
    requires Nameable(k, w, listing, b) && listing == [a, n] && w.configs.Keys == {a, n} && Twins(w, b, a, n)
    requires Own(k, w, a) && !Own(k, w, n)
    ensures forall x :: x in w.configs ==> (Gone(k, w, listing, b, |listing|, x) <==> x in {a})
  {
    GoneAtEnd(k, w, listing, b, a);
  }

  /** The annotated one of this instance and the one of the derived name of another. */
  lemma PlannedTwiceRemovedOnce(fnv: string -> nat)
    ensures var k, w, listing := WiringIdentity.SampleKagent(fnv), SampleWorld(), ["a", "m"];
            && Nameable(k, w, listing, "x")
            && PlanRemoval(k, w, listing, listing, "x") == BackendRemoval(["m", "m"], [])
            && var u := Unwire(k, w, listing, ModelsOf(w, listing, "x"), "x");
               u.failed.None? && u.removed == ["m"] && u.after.configs == w.configs - {"a"}
  {
    SampleIsNameable(fnv);
    SampleLabels(map[MODEL := "m"], "i");
    SampleLabels(map[], "j");
    TwiceOrOnce(WiringIdentity.SampleKagent(fnv), SampleWorld(), "x", "a", "m");
  }
}
