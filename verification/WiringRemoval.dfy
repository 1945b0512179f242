/** The dry run of a removal, what Removal reports against what Remove does; and a backend's
    removal, PlanBackendRemoval and UnwireBackend (internal/service/service.go). */
module WiringRemoval {
  import opened Basics
  import opened Flux
  import opened Wiring
  import opened WiringOwnership
  import WiringIdentity
  import Names

  /** Rendered for a removal: the objects a removal deletes, the Flux object that
      applies the ModelConfig, or whose the one left in place is. */
  datatype Rendered = Rendered(config: Option<string>, secret: bool, gitOps: Option<Owner>, left: Option<string>)

  function Removal(k: Kagent, w: World, listing: seq<string>, b: Backend, model: string, scope: Scope): Rendered
    requires Listing(w, listing)
  {
    var found := Find(k, w, listing, b, model);
    if found.None? then Rendered(None, false, None, None)
    else
      var owner := Applied(k, w, found.value);
      if owner.None? && IsKept(k, w, found.value, scope) then Rendered(None, false, None, Some(Creator(w.configs[found.value])))
      else
        var secret := Names.PlaceholderSecretName(found.value);
        Rendered(found, secret in w.secrets && Get(w.secrets[secret], MANAGED_BY) == MANAGED_VALUE, owner, None)
  }

  /** Removal tells exactly what Remove answers, and names the ModelConfig it deletes.
      The Secret it names is deleted exactly when no Flux object applies it. */
  lemma DryRunIsTheRun(k: Kagent, w: World, listing: seq<string>, b: Backend, model: string, scope: Scope)
    requires Listing(w, listing)
    ensures var r := Removal(k, w, listing, b, model, scope);
            var d := RemoveDecision(k, w, listing, b, model, scope);
            var w' := RemoveStep(k, w, listing, b, model, scope, 2);
            && (forall who :: r.left == Some(who) <==> d == Refused(NotOwned(who)))
            && (forall o :: r.gitOps == Some(o) <==> d == Refused(GitOpsOwned(o)))
            && (r.config.Some? && r.gitOps.None? <==> d.Done? && d.value.Some?)
            && (r.config.None? && r.left.None? <==> d == Done(None)) && (r.config.None? ==> !r.secret)
            && (d.Done? && d.value.Some? ==>
                  && d.value == r.config && r.config.value in w.configs && w'.configs == w.configs - {r.config.value}
                  && var secret := Names.PlaceholderSecretName(r.config.value);
                     && w'.secrets == w.secrets - (if SecretGoes(k, w, r.config.value) then {secret} else {})
                     && (SecretGoes(k, w, r.config.value) <==>
                         r.secret && Applying(w.fleet, w.secrets[secret], Ident(k.namespace, secret, "", "Secret")).None?))
            && (!(d.Done? && d.value.Some?) ==> w' == w)
  {
    var d := RemoveDecision(k, w, listing, b, model, scope);
    if d.Done? && d.value.Some? { RemoveInTurn(k, w, d.value.value); }
  }

  /** A Secret that Helm applies: the dry run names it, the removal leaves it. */
  lemma DryRunNamesAppliedSecret(fnv: string -> nat)
    ensures var k := WiringIdentity.SampleKagent(fnv);
            var secret := Names.PlaceholderSecretName("a");
            var w := WiringIdentity.SmallWorld(map["a" := WiringIdentity.Sample("x", 0)],
                                               map[secret := map[MANAGED_BY := MANAGED_VALUE, HELM_NAME := "release"]]);
            && Listing(w, ["a"]) && Removal(k, w, ["a"], "x", "m", CreatedHere) == Rendered(Some("a"), true, None, None)
            && RemoveDecision(k, w, ["a"], "x", "m", CreatedHere) == Done(Some("a"))
            && secret in RemoveStep(k, w, ["a"], "x", "m", CreatedHere, 2).secrets
  {
    var k := WiringIdentity.SampleKagent(fnv);
    var secret := Names.PlaceholderSecretName("a");
    var labels := map[MANAGED_BY := MANAGED_VALUE, HELM_NAME := "release"];
    var w := WiringIdentity.SmallWorld(map["a" := WiringIdentity.Sample("x", 0)], map[secret := labels]);
    WiringIdentity.SampleLabels("x", 0);
    assert MANAGED_BY[0] == 'a' && HELM_NAME[0] == 'h' && KUSTOMIZE_NAME[0] == 'k';
    assert OwnerOf(labels).Some? && OwnerOf(labels).value.kind.HelmReleaseKind?;
    assert Annotated(w.configs["a"], "x", "m");
    DryRunIsTheRun(k, w, ["a"], "x", "m", CreatedHere);
  }

  // ------------------------------------------------------------ a backend's removal

  /** A reported ModelConfig's model reference: the annotation, else spec.model. */
  function RefModel(c: Config): string {
    if Get(c.annotations, MODEL) != "" then Get(c.annotations, MODEL) else c.spec.model
  }

  /** What List reports for backend b. */
  predicate OfBackend(c: Config, b: Backend) { Get(c.labels, BACKEND) == b && RefModel(c) != "" }

  datatype BackendRemoval = BackendRemoval(unwires: seq<string>, blocking: seq<string>)

  /** PlanBackendRemoval over the listed items. */
  function PlanRemoval(k: Kagent, w: World, listing: seq<string>, items: seq<string>, b: Backend): BackendRemoval
    requires Listing(w, listing) && forall n :: n in items ==> n in w.configs
  {
    if items == [] then BackendRemoval([], [])
    else
      var rest := PlanRemoval(k, w, listing, items[1..], b);
      var c := w.configs[items[0]];
      if !OfBackend(c, b) then rest
      else
        var r := Removal(k, w, listing, b, RefModel(c), CreatedHere);
        if r.left.Some? && r.left.value != "" then rest
        else if r.left.Some? || r.gitOps.Some? then BackendRemoval(rest.unwires, [items[0]] + rest.blocking)
        else BackendRemoval([RefModel(c)] + rest.unwires, rest.blocking)
  }

  /** The models UnwireBackend goes through: what List reported for b at the start. */
  function ModelsOf(w: World, items: seq<string>, b: Backend): seq<string>
    requires forall n :: n in items ==> n in w.configs
  {
    if items == [] then []
    else (if OfBackend(w.configs[items[0]], b) then [RefModel(w.configs[items[0]])] else [])
         + ModelsOf(w, items[1..], b)
  }

  /** The listing a later call of the loop meets: the names still there, in order. */
  function Remaining(configs: map<string, Config>, listing: seq<string>): (r: seq<string>)
    ensures forall n :: n in r <==> n in listing && n in configs
  {
    if listing == [] then []
    else if listing[0] in configs then [listing[0]] + Remaining(configs, listing[1..])
    else Remaining(configs, listing[1..])
  }

  datatype Unwired = Unwired(after: World, removed: seq<string>, failed: Option<Refusal>)

  /** UnwireBackend: one Remove after another, left ones skipped, the first other refusal ends it. */
  function Unwire(k: Kagent, w: World, listing: seq<string>, models: seq<string>, b: Backend): Unwired
    requires Listing(w, listing)
    decreases |models|
  {
    if models == [] then Unwired(w, [], None)
    else
      var d := RemoveDecision(k, w, listing, b, models[0], CreatedHere);
      if d.Refused? && !d.why.NotOwned? then Unwired(w, [], Some(d.why))
      else
        var w' := RemoveStep(k, w, listing, b, models[0], CreatedHere, 2);
        RemainingLists(k, w, listing, b, models[0]);
        var rest := Unwire(k, w', Remaining(w'.configs, listing), models[1..], b);
        if d.Refused? then rest else rest.(removed := [models[0]] + rest.removed)
  }

  lemma RemainingLists(k: Kagent, w: World, listing: seq<string>, b: Backend, model: string)
    requires Listing(w, listing)
    ensures var w' := RemoveStep(k, w, listing, b, model, CreatedHere, 2); Listing(w', Remaining(w'.configs, listing))
  {
    var d := RemoveDecision(k, w, listing, b, model, CreatedHere);
    if d.Done? && d.value.Some? { RemoveInTurn(k, w, d.value.value); }
    RemainingDistinct(RemoveStep(k, w, listing, b, model, CreatedHere, 2).configs, listing);
  }

  lemma {:induction false} RemainingDistinct(configs: map<string, Config>, listing: seq<string>)
    requires forall i, j :: 0 <= i < j < |listing| ==> listing[i] != listing[j]
    ensures var r := Remaining(configs, listing); forall i, j :: 0 <= i < j < |r| ==> r[i] != r[j]
  {
    if listing != [] {
      assert listing[0] !in listing[1..];
      RemainingDistinct(configs, listing[1..]);
      assert listing[0] !in Remaining(configs, listing[1..]);
    }
  }

  /** One turn of the loop. */
  lemma UnwireTurn(k: Kagent, w: World, listing: seq<string>, models: seq<string>, b: Backend)
    requires Listing(w, listing) && models != []
    ensures var d := RemoveDecision(k, w, listing, b, models[0], CreatedHere);
            var w' := RemoveStep(k, w, listing, b, models[0], CreatedHere, 2);
            Listing(w', Remaining(w'.configs, listing))
            && var rest := Unwire(k, w', Remaining(w'.configs, listing), models[1..], b);
               Unwire(k, w, listing, models, b)
                 == if d.Refused? && !d.why.NotOwned? then Unwired(w', [], Some(d.why))
                    else if d.Refused? then rest else rest.(removed := [models[0]] + rest.removed)
  {
    RemainingLists(k, w, listing, b, models[0]);
  }

  /** UnwireBackend as the source writes it. */
  method UnwireBackend(k: Kagent, c: Cluster, listing: seq<string>, b: Backend) returns (removed: seq<string>, failed: Option<Refusal>)
    requires Listing(c.Now(), listing)
    modifies c`configs, c`secrets
    ensures var models := ModelsOf(old(c.Now()), listing, b);
            Unwired(c.Now(), removed, failed) == Unwire(k, old(c.Now()), listing, models, b)
  {
    removed, failed := [], None;
    ghost var start := c.Now();
    var models := ModelsOf(World(c.configs, c.secrets, c.fleet, c.referrers, c.clock), listing, b);
    var now := listing;
    for i := 0 to |models|
      invariant Listing(c.Now(), now)
      invariant var rest := Unwire(k, c.Now(), now, models[i..], b);
                Unwire(k, start, listing, models, b) == Unwired(rest.after, removed + rest.removed, rest.failed)
    {
      ghost var w := c.Now();
      assert models[i..][0] == models[i] && models[i..][1..] == models[i + 1..];
      UnwireTurn(k, w, now, models[i..], b);
      var r := c.Remove(k, now, b, models[i], CreatedHere);
      if r.Refused? && !r.why.NotOwned? { failed := Some(r.why); return; }
      now := Remaining(c.configs, now);
      if r.Done? { removed := removed + [models[i]]; }
    }
  }

  /** Every ModelConfig listed for b is the one find answers for its model: one match
      per (backend, model). */
  ghost predicate SelfFound(k: Kagent, w: World, listing: seq<string>, b: Backend)
    requires Listing(w, listing)
  {
    forall n :: n in listing && OfBackend(w.configs[n], b) ==>
      Find(k, w, listing, b, RefModel(w.configs[n])) == Some(n)
  }

  /** find answers the same of what is left, while the one it answers is. */
  lemma {:induction false} FirstAfterDrop(configs: map<string, Config>, fewer: map<string, Config>, items: seq<string>,
                                          b: Backend, model: string, name: string)
    requires forall n :: n in items ==> n in configs
    requires forall n :: n in fewer ==> n in configs && fewer[n] == configs[n]
    requires name in fewer
    ensures FirstAnnotated(configs, items, b, model) == Some(name) ==>
            FirstAnnotated(fewer, Remaining(fewer, items), b, model) == Some(name)
    ensures FirstAnnotated(configs, items, b, model) == None ==>
            FirstAnnotated(fewer, Remaining(fewer, items), b, model) == None
  {
    if items != [] {
      FirstAfterDrop(configs, fewer, items[1..], b, model, name);
      if items[0] in fewer {
        assert Remaining(fewer, items)[1..] == Remaining(fewer, items[1..]);
      }
    }
  }

  /** The ModelConfigs of backend b this instance created, among items. */
  function OwnOf(k: Kagent, w: World, items: seq<string>, b: Backend): set<string>
    requires forall n :: n in items ==> n in w.configs
  {
    if items == [] then {} else OwnItem(k, w, items[0], b) + OwnOf(k, w, items[1..], b)
  }

  function OwnItem(k: Kagent, w: World, n: string, b: Backend): set<string>
    requires n in w.configs
  {
    if OfBackend(w.configs[n], b) && IsCreatedHere(k, w.configs[n]) then {n} else {}
  }

  lemma {:induction false} OwnMembers(k: Kagent, w: World, items: seq<string>, b: Backend)
    requires forall n :: n in items ==> n in w.configs
    ensures forall n :: n in OwnOf(k, w, items, b) <==>
              n in items && OfBackend(w.configs[n], b) && IsCreatedHere(k, w.configs[n])
  {
    if items != [] { OwnMembers(k, w, items[1..], b); }
  }

  /** A ModelConfig of b is named by its model: annotated with it, or without an annotation
      of the name derived from it, no other being annotated with it. */
  ghost predicate NamedByModel(k: Kagent, w: World, b: Backend, n: string)
    requires n in w.configs
  {
    var model := RefModel(w.configs[n]);
    Get(w.configs[n].annotations, MODEL) != ""
    || (Names.Derived(k.prefix, model, k.fnv) == n
        && forall m :: m in w.configs && Managed(w.configs[m]) ==> !Annotated(w.configs[m], b, model))
  }

  /** With one match per (backend, model), find answers each ModelConfig of b exactly when
      each is named by its model. */
  lemma UniqueIsSelfFound(k: Kagent, w: World, listing: seq<string>, b: Backend)
    requires Listing(w, listing) && WiringIdentity.Unique(w.configs) && b != ""
    ensures SelfFound(k, w, listing, b) <==>
              forall n :: n in listing && OfBackend(w.configs[n], b) ==> NamedByModel(k, w, b, n)
  {
    forall n | n in listing && OfBackend(w.configs[n], b)
      ensures Find(k, w, listing, b, RefModel(w.configs[n])) == Some(n) <==> NamedByModel(k, w, b, n)
    {
      var model := RefModel(w.configs[n]);
      if Get(w.configs[n].annotations, MODEL) != "" {
        WiringIdentity.FindIsTheMatch(k, w, listing, b, model, n);
      } else {
        var hit := FirstAnnotated(w.configs, listing, b, model);
        assert forall m :: m in w.configs && Managed(w.configs[m]) ==> m in listing;
        assert hit.Some? ==> hit.value in listing && Annotated(w.configs[hit.value], b, model) && hit.value != n;
      }
    }
  }

  lemma {:induction false} RemainingAll(configs: map<string, Config>, listing: seq<string>)
    requires forall n :: n in listing ==> n in configs
    ensures Remaining(configs, listing) == listing
  {
    if listing != [] {
      RemainingAll(configs, listing[1..]);
      assert listing == [listing[0]] + listing[1..];
    }
  }

  lemma {:induction false} RemainingTwice(configs: map<string, Config>, fewer: map<string, Config>, listing: seq<string>)
    requires fewer.Keys <= configs.Keys
    ensures Remaining(fewer, Remaining(configs, listing)) == Remaining(fewer, listing)
  {
    if listing != [] {
      RemainingTwice(configs, fewer, listing[1..]);
      if listing[0] in configs {
        assert Remaining(configs, listing)[1..] == Remaining(configs, listing[1..]);
      }
    }
  }

  /** What of w is left, its API server otherwise as it was. */
  ghost predicate Left(w: World, listing: seq<string>, now: World) {
    && now.fleet == w.fleet
    && (forall n :: n in now.configs ==> n in w.configs && now.configs[n] == w.configs[n])
    && Listing(now, Remaining(now.configs, listing))
  }

  /** Remove on the item find answers with, applied by no Flux object. */
  lemma RemoveTurn(k: Kagent, now: World, left: seq<string>, b: Backend, model: string, n: string) returns (next: World)
    requires Listing(now, left) && n in now.configs && Find(k, now, left, b, model) == Some(n) && Applied(k, now, n).None?
    ensures next == RemoveStep(k, now, left, b, model, CreatedHere, 2)
    ensures next.fleet == now.fleet && Listing(next, Remaining(next.configs, left))
    ensures var own := IsCreatedHere(k, now.configs[n]);
            && next.configs == (if own then now.configs - {n} else now.configs)
            && RemoveDecision(k, now, left, b, model, CreatedHere)
                 == if own then Done(Some(n)) else Refused(NotOwned(Creator(now.configs[n])))
  {
    RemainingLists(k, now, left, b, model);
    RemoveInTurn(k, now, n);
    next := RemoveStep(k, now, left, b, model, CreatedHere, 2);
  }

  lemma UnwireUnrolls(k: Kagent, now: World, left: seq<string>, model: string, rest: seq<string>, b: Backend)
    requires Listing(now, left)
    requires var d := RemoveDecision(k, now, left, b, model, CreatedHere); d.Done? || d.why.NotOwned?
    ensures var next := RemoveStep(k, now, left, b, model, CreatedHere, 2);
            Listing(next, Remaining(next.configs, left))
            && var u := Unwire(k, next, Remaining(next.configs, left), rest, b);
               Unwire(k, now, left, [model] + rest, b)
                 == if RemoveDecision(k, now, left, b, model, CreatedHere).Done? then u.(removed := [model] + u.removed) else u
  {
    assert ([model] + rest)[0] == model && ([model] + rest)[1..] == rest;
    UnwireTurn(k, now, left, [model] + rest, b);
  }
}
