/** One ModelConfig per (backend, model): what Ensure keeps, what find answers
    afterwards, and what repeating an Ensure changes. */
module WiringIdentity {
  import opened Basics
  import opened Flux
  import opened Wiring
  import opened WiringOwnership
  import Names
  import Text

  predicate Matches(c: Config, b: string, model: string) { Managed(c) && Annotated(c, b, model) }

  /** Some backend is matched by both. */
  predicate Overlap(c: Config, d: Config) {
    Get(c.labels, BACKEND) == "" || Get(d.labels, BACKEND) == "" || Get(c.labels, BACKEND) == Get(d.labels, BACKEND)
  }

  /** At most one managed ModelConfig matches each backend and model by annotation. */
  ghost predicate Unique(configs: map<string, Config>) {
    forall n, n' :: n in configs && n' in configs && n != n' ==> Apart(configs[n], configs[n'])
  }

  predicate Apart(c: Config, d: Config) {
    Managed(c) && Managed(d) && Get(c.annotations, MODEL) == Get(d.annotations, MODEL) != "" ==> !Overlap(c, d)
  }

  /** Unique in the words of find. */
  ghost predicate OneMatchEach(configs: map<string, Config>) {
    forall b: string, model: string, n, n' ::
      (b != "" && model != "" && n in configs && n' in configs
       && Matches(configs[n], b, model) && Matches(configs[n'], b, model)) ==> n == n'
  }

  lemma UniqueMatches(configs: map<string, Config>)
    ensures Unique(configs) <==> OneMatchEach(configs)
  {
    if OneMatchEach(configs) {
      forall n, n' | n in configs && n' in configs && n != n' ensures Apart(configs[n], configs[n']) {
        var c, d := configs[n], configs[n'];
        var l, l' := Get(c.labels, BACKEND), Get(d.labels, BACKEND);
        var b := if l != "" then l else if l' != "" then l' else "any";
        var model := Get(c.annotations, MODEL);
        assert !(Matches(c, b, model) && Matches(d, b, model) && b != "" && model != "");
      }
    }
  }

  lemma FindIsTheMatch(k: Kagent, w: World, listing: seq<string>, b: Backend, model: string, name: string)
    requires Listing(w, listing) && Unique(w.configs) && b != "" && model != ""
    requires name in w.configs && Matches(w.configs[name], b, model)
    ensures Find(k, w, listing, b, model) == Some(name)
  {
    var hit := FirstAnnotated(w.configs, listing, b, model);
    assert name in listing;
    assert hit.Some? && hit.value in w.configs;
    assert Apart(w.configs[hit.value], w.configs[name]) || hit.value == name;
  }

  /** With Unique the order List answers in does not matter, for a named backend. */
  lemma FindIgnoresOrder(k: Kagent, w: World, listing: seq<string>, listing': seq<string>, b: Backend, model: string)
    requires Listing(w, listing) && Listing(w, listing') && Unique(w.configs) && b != "" && model != ""
    ensures Find(k, w, listing, b, model) == Find(k, w, listing', b, model)
  {
    var hit := FirstAnnotated(w.configs, listing, b, model);
    if hit.Some? {
      FindIsTheMatch(k, w, listing, b, model, hit.value);
      FindIsTheMatch(k, w, listing', b, model, hit.value);
    } else {
      assert forall n :: n in listing' ==> n in listing;
      assert FirstAnnotated(w.configs, listing', b, model).None?;
      var name := Names.Derived(k.prefix, model, k.fnv);
      assert name in listing <==> name in listing';
    }
  }

  /** find falls back on the derived name: of a model that no ModelConfig is annotated with, it
      answers the one that carries another's name exactly when both names are of the same
      words; and then what a removal of the other does, a removal of this one does. */
  lemma SharedName(k: Kagent, w: World, listing: seq<string>, b: Backend, x: string, y: string)
    requires Listing(w, listing) && Find(k, w, listing, b, x) == Some(Names.Derived(k.prefix, x, k.fnv))
    requires forall n :: n in listing ==> !Annotated(w.configs[n], b, y)
    requires |Names.Stem(k.prefix, Names.Raw(x))| <= Names.MAX_NAME_LENGTH
    requires |Names.Stem(k.prefix, Names.Raw(y))| <= Names.MAX_NAME_LENGTH
    ensures var same := Names.SameName(Names.Words(Names.Raw(x)), Names.Words(Names.Raw(y)));
            && (Find(k, w, listing, b, y) == Find(k, w, listing, b, x) <==> same)
            && (same ==> forall scope :: RemoveDecision(k, w, listing, b, y, scope) == RemoveDecision(k, w, listing, b, x, scope))
  {
    Names.DerivedNamesCoincide(k.prefix, x, y, k.fnv);
    assert FirstAnnotated(w.configs, listing, b, y).None?;
  }

  // ---------------------------------------------------------------- one Ensure

  /** Some ModelConfig would overlap the one written. */
  ghost predicate WrittenOverlaps(w: World, p: Plan) {
    exists n :: n in w.configs && n != p.name && Some(n) != p.replaced && !Apart(w.configs[n], Written(w, p))
  }

  /** The call replaces the model's ModelConfig, which it created under an older name. */
  predicate Replacing(k: Kagent, w: World, listing: seq<string>, model: string, ep: Endpoint)
    requires Listing(w, listing)
  {
    var prior := Find(k, w, listing, ep.backend, model);
    prior.Some? && ep.name != "" && prior.value != Target(k, w, model, ep) && IsCreatedHere(k, w.configs[prior.value])
  }

  /** n is a further ModelConfig of the model, of a backend that what stands at target, if
      anything, is not told apart from. */
  predicate IsFurther(w: World, n: string, model: string, prior: string, target: string)
    requires n in w.configs
  {
    && n != target && n != prior && Managed(w.configs[n]) && Get(w.configs[n].annotations, MODEL) == model
    && (target in w.configs ==> Overlap(w.configs[n], w.configs[target]))
  }

  /** The endpoint names no backend and replaces an older name while the model has a further
      ModelConfig. */
  predicate Clash(k: Kagent, w: World, listing: seq<string>, model: string, ep: Endpoint)
    requires Listing(w, listing)
  {
    && ep.backend == "" && Replacing(k, w, listing, model, ep)
    && exists n :: n in w.configs && IsFurther(w, n, model, Find(k, w, listing, ep.backend, model).value, Target(k, w, model, ep))
  }

  lemma WrittenMatches(k: Kagent, w: World, listing: seq<string>, model: string, ep: Endpoint)
    requires Listing(w, listing) && EnsurePlan(k, w, listing, model, ep).Done?
    ensures model != ""
    ensures var c := Written(w, EnsurePlan(k, w, listing, model, ep).value);
            && Managed(c) && Get(c.annotations, MODEL) == model
            && (ep.backend != "" ==> Get(c.labels, BACKEND) == ep.backend)
  {
    PlanIsOwn(k, w, listing, model, ep);
    var built := BuildLabels(k, ep);
    assert BACKEND != INSTANCE && BACKEND != MANAGED_BY && INSTANCE != MANAGED_BY by {
      assert |BACKEND| != |INSTANCE| && |BACKEND| != |MANAGED_BY| && |INSTANCE| != |MANAGED_BY|;
    }
    assert ep.backend != "" ==> Get(built, BACKEND) == ep.backend && Get(built - {INSTANCE}, BACKEND) == ep.backend;
  }

  /** An Ensure keeps one match each exactly when it does not clash. */
  lemma EnsureUniqueIff(k: Kagent, w: World, listing: seq<string>, model: string, ep: Endpoint)
    requires Listing(w, listing) && Unique(w.configs) && EnsurePlan(k, w, listing, model, ep).Done?
    ensures Unique(EnsureAll(k, w, listing, model, ep).configs) <==> !Clash(k, w, listing, model, ep)
  {
    var p := EnsurePlan(k, w, listing, model, ep).value;
    EnsureConfigsAll(k, w, p);
    UniqueAfter(w, p);
    if ep.backend != "" { NamedNeverOverlaps(k, w, listing, model, ep, p); } else { UnnamedOverlaps(k, w, listing, model, ep, p); }
  }

  lemma UniqueAfter(w: World, p: Plan)
    requires Unique(w.configs)
    ensures Unique(WithoutReplaced(w, p)[p.name := Written(w, p)]) <==> !WrittenOverlaps(w, p)
  {
    var after := WithoutReplaced(w, p)[p.name := Written(w, p)];
    assert forall n :: n in after && n != p.name ==> n in w.configs && after[n] == w.configs[n];
    if WrittenOverlaps(w, p) {
      var n :| n in w.configs && n != p.name && Some(n) != p.replaced && !Apart(w.configs[n], Written(w, p));
      assert n in after && p.name in after && !Apart(after[n], after[p.name]);
    } else {
      forall n, n' | n in after && n' in after && n != n' ensures Apart(after[n], after[n']) {
        if n != p.name && n' != p.name {
          assert Apart(w.configs[n], w.configs[n']);
        } else if n' == p.name {
          assert Apart(w.configs[n], Written(w, p));
        } else {
          assert Apart(w.configs[n'], Written(w, p));
        }
      }
    }
  }

  /** For an endpoint of a named backend nothing overlaps. */
  lemma NamedNeverOverlaps(k: Kagent, w: World, listing: seq<string>, model: string, ep: Endpoint, p: Plan)
    requires Listing(w, listing) && Unique(w.configs) && EnsurePlan(k, w, listing, model, ep) == Done(p) && ep.backend != ""
    ensures !WrittenOverlaps(w, p)
  {
    WrittenMatches(k, w, listing, model, ep);
    forall n | n in w.configs && !Apart(w.configs[n], Written(w, p)) ensures n == p.name || Some(n) == p.replaced {
      FindIsTheMatch(k, w, listing, ep.backend, model, n);
      PriorIsTaken(k, w, listing, model, ep, p);
    }
  }

  /** The ModelConfig find answers is the one written or the one replaced. */
  lemma PriorIsTaken(k: Kagent, w: World, listing: seq<string>, model: string, ep: Endpoint, p: Plan)
    requires Listing(w, listing) && EnsurePlan(k, w, listing, model, ep) == Done(p)
    ensures var prior := Find(k, w, listing, ep.backend, model); prior.Some? ==> prior.value == p.name || prior == p.replaced
  {
  }

  /** For one that names none, what is written keeps the backend of what stood there. */
  lemma UnnamedOverlaps(k: Kagent, w: World, listing: seq<string>, model: string, ep: Endpoint, p: Plan)
    requires Listing(w, listing) && Unique(w.configs) && EnsurePlan(k, w, listing, model, ep) == Done(p) && ep.backend == ""
    ensures WrittenOverlaps(w, p) <==> Clash(k, w, listing, model, ep)
  {
    WrittenMatches(k, w, listing, model, ep);
    PlanIsDecided(k, w, listing, model, ep, p);
    WrittenBackend(k, w, listing, model, ep, p);
    var prior := Find(k, w, listing, "", model);
    assert p.replaced.Some? <==> Replacing(k, w, listing, model, ep);
    if p.replaced.None? {
      forall n | n in w.configs && n != p.name ensures Apart(w.configs[n], Written(w, p)) {
        if Managed(w.configs[n]) && Get(w.configs[n].annotations, MODEL) == model {
          AnnotatedIsFound(k, w, listing, model, n);
          assert prior == Some(p.name) && Apart(w.configs[n], w.configs[p.name]);
        }
      }
    } else {
      forall n | n in w.configs && n != p.name && Some(n) != p.replaced
        ensures !Apart(w.configs[n], Written(w, p)) <==> IsFurther(w, n, model, p.replaced.value, p.name)
      {
      }
    }
  }

  lemma WrittenBackend(k: Kagent, w: World, listing: seq<string>, model: string, ep: Endpoint, p: Plan)
    requires Listing(w, listing) && Decided(k, w, listing, model, ep, p) && ep.backend == ""
    ensures Get(Written(w, p).labels, BACKEND) == if p.name in w.configs then Get(w.configs[p.name].labels, BACKEND) else ""
  {
    assert |MANAGED_BY| != |INSTANCE| && |MANAGED_BY| != |BACKEND| && |INSTANCE| != |BACKEND|;
    assert BACKEND !in p.labels;
  }

  /** Any managed ModelConfig of the model makes find answer one by annotation. */
  lemma AnnotatedIsFound(k: Kagent, w: World, listing: seq<string>, model: string, n: string)
    requires Listing(w, listing) && n in w.configs && Managed(w.configs[n]) && Get(w.configs[n].annotations, MODEL) == model
    ensures var prior := Find(k, w, listing, "", model);
            prior.Some? && prior.value in w.configs && Managed(w.configs[prior.value])
            && Get(w.configs[prior.value].annotations, MODEL) == model
  {
    assert n in listing && Annotated(w.configs[n], "", model);
  }

  /** Every Ensure for an endpoint that names its backend, as the service's do, keeps one match each. */
  lemma NamedBackendNeverClashes(k: Kagent, w: World, listing: seq<string>, model: string, ep: Endpoint)
    requires Listing(w, listing) && Unique(w.configs) && EnsurePlan(k, w, listing, model, ep).Done? && ep.backend != ""
    ensures Unique(EnsureAll(k, w, listing, model, ep).configs)
  {
    EnsureUniqueIff(k, w, listing, model, ep);
  }

  lemma FewerIsUnique(a: map<string, Config>, b: map<string, Config>)
    requires Unique(a) && b.Keys <= a.Keys && forall n :: n in b ==> b[n] == a[n]
    ensures Unique(b)
  {
    forall n, n' | n in b && n' in b && n != n' ensures Apart(b[n], b[n']) {
      assert Apart(a[n], a[n']);
    }
  }

  /** Every Ensure for a named backend, an API fault or not, keeps them unique. */
  lemma EnsureKeepsUnique(k: Kagent, w: World, listing: seq<string>, model: string, ep: Endpoint, landed: nat)
    requires Listing(w, listing) && Unique(w.configs) && ep.backend != ""
    ensures Unique(EnsureStep(k, w, listing, model, ep, landed).configs)
  {
    var d := EnsurePlan(k, w, listing, model, ep);
    if d.Done? {
      EnsureConfigs(k, w, d.value, landed);
      EnsureConfigsAll(k, w, d.value);
      NamedBackendNeverClashes(k, w, listing, model, ep);
      FewerIsUnique(w.configs, WithoutReplaced(w, d.value));
    }
  }

  lemma RemoveKeepsUnique(k: Kagent, w: World, listing: seq<string>, b: Backend, model: string, scope: Scope, landed: nat)
    requires Listing(w, listing) && Unique(w.configs)
    ensures Unique(RemoveStep(k, w, listing, b, model, scope, landed).configs)
  {
    var d := RemoveDecision(k, w, listing, b, model, scope);
    if d.Done? && d.value.Some? {
      RemoveConfigs(k, w, d.value.value, landed);
      FewerIsUnique(w.configs, w.configs - {d.value.value});
    }
  }

  /** The calls of model-manager instances; others leave the ModelConfigs alone. */
  ghost predicate OnlyWirers(w: World, a: Action) {
    match a
    case EnsureCall(_, _, _, ep, _) => ep.backend != ""
    case RemoveCall(_, _, _, _, _, _) => true
    case Outside(after) => after.configs == w.configs
  }

  lemma StepKeepsUnique(w: World, a: Action)
    requires Enabled(w, a) && OnlyWirers(w, a) && Unique(w.configs)
    ensures Unique(Next(w, a).configs)
  {
    match a
    case EnsureCall(k, listing, model, ep, landed) => EnsureKeepsUnique(k, w, listing, model, ep, landed);
    case RemoveCall(k, listing, b, model, scope, landed) => RemoveKeepsUnique(k, w, listing, b, model, scope, landed);
    case Outside(_) =>
  }

  /** Over every run of any number of instances. */
  lemma RunKeepsUnique(states: seq<World>, actions: seq<Action>)
    requires IsRun(states, actions) && Unique(states[0].configs)
    requires forall j :: 0 <= j < |actions| ==> OnlyWirers(states[j], actions[j])
    ensures forall i :: 0 <= i < |states| ==> Unique(states[i].configs)
  {
    for i := 0 to |actions|
      invariant forall j :: 0 <= j <= i ==> Unique(states[j].configs)
    {
      assert Steps(states, actions, i);
      StepKeepsUnique(states[i], actions[i]);
    }
  }

  /** find answers the ModelConfig a successful Ensure wrote. */
  lemma EnsureThenFind(k: Kagent, w: World, listing: seq<string>, model: string, ep: Endpoint, listing': seq<string>)
    requires Listing(w, listing) && Unique(w.configs) && EnsurePlan(k, w, listing, model, ep).Done? && ep.backend != ""
    requires Listing(EnsureAll(k, w, listing, model, ep), listing')
    ensures Find(k, EnsureAll(k, w, listing, model, ep), listing', ep.backend, model)
         == Some(EnsurePlan(k, w, listing, model, ep).value.name)
  {
    var p := EnsurePlan(k, w, listing, model, ep).value;
    var w' := EnsureAll(k, w, listing, model, ep);
    EnsureConfigsAll(k, w, p);
    WrittenMatches(k, w, listing, model, ep);
    NamedBackendNeverClashes(k, w, listing, model, ep);
    FindIsTheMatch(k, w', listing', ep.backend, model, p.name);
  }

  /** For an endpoint that names no backend: in every listing exactly when the ModelConfig
      written is the model's only one. */
  lemma UnnamedEnsureThenFind(k: Kagent, w: World, listing: seq<string>, model: string, ep: Endpoint)
    requires Listing(w, listing) && EnsurePlan(k, w, listing, model, ep).Done? && ep.backend == ""
    ensures var p := EnsurePlan(k, w, listing, model, ep).value;
            var w' := EnsureAll(k, w, listing, model, ep);
            (forall listing' :: Listing(w', listing') ==> Find(k, w', listing', "", model) == Some(p.name))
            <==> forall n :: n in w.configs && n != p.name && Some(n) != p.replaced ==> !IsOfModel(w.configs[n], model)
  {
    var p := EnsurePlan(k, w, listing, model, ep).value;
    var w' := EnsureAll(k, w, listing, model, ep);
    EnsureConfigsAll(k, w, p);
    WrittenMatches(k, w, listing, model, ep);
    assert IsOfModel(w'.configs[p.name], model);
    forall n | n in w'.configs && n != p.name ensures n in w.configs && Some(n) != p.replaced && w'.configs[n] == w.configs[n] {}
    if n :| n in w.configs && n != p.name && Some(n) != p.replaced && IsOfModel(w.configs[n], model) {
      var listing' := ListedFirst(w', n);
      assert Annotated(w'.configs[listing'[0]], "", model);
      assert Find(k, w', listing', "", model) == Some(n);
    } else {
      forall listing' | Listing(w', listing') ensures Find(k, w', listing', "", model) == Some(p.name) {
        OnlyOneFound(k, w', listing', model, p.name);
      }
    }
  }

  predicate IsOfModel(c: Config, model: string) { Managed(c) && Get(c.annotations, MODEL) == model }

  lemma OnlyOneFound(k: Kagent, w: World, listing: seq<string>, model: string, name: string)
    requires Listing(w, listing) && name in w.configs
    requires forall n :: n in w.configs ==> (IsOfModel(w.configs[n], model) <==> n == name)
    ensures Find(k, w, listing, "", model) == Some(name)
  {
    assert name in listing && Annotated(w.configs[name], "", model);
  }

  /** List may answer any managed one first. */
  lemma ListedFirst(w: World, n: string) returns (listing: seq<string>)
    requires n in w.configs && Managed(w.configs[n])
    ensures Listing(w, listing) && listing != [] && listing[0] == n
  {
    var rest := Listed((set m | m in w.configs && Managed(w.configs[m])) - {n});
    listing := [n] + rest;
  }

  lemma {:induction false} Listed(names: set<string>) returns (listing: seq<string>)
    ensures (forall n :: n in listing <==> n in names) && Distinct(listing)
  {
    if names == {} { return []; }
    var n :| n in names;
    var rest := Listed(names - {n});
    listing := [n] + rest;
  }

  // ---------------------------------------------------------------- Ensure twice

  /** The same ModelConfigs but for their resource versions. */
  ghost predicate SameButVersions(a: map<string, Config>, b: map<string, Config>) {
    a.Keys == b.Keys && forall n :: n in a ==> a[n].(version := b[n].version) == b[n]
  }

  /** The labels a wirer writes say nothing to Flux. */
  lemma WirerLabelsAreNotFlux(before: Labels, added: Labels)
    requires added.Keys <= {MANAGED_BY, BACKEND, INSTANCE}
    ensures SameFlux(before + added, before)
  {
    assert KUSTOMIZE_NAME[0] == 'k' && KUSTOMIZE_NAMESPACE[0] == 'k' && HELM_NAME[0] == 'h' && HELM_NAMESPACE[0] == 'h';
    assert MANAGED_BY[0] == 'a' && BACKEND[0] == 'm' && INSTANCE[0] == 'm';
    assert KUSTOMIZE_NAME !in added && KUSTOMIZE_NAMESPACE !in added && HELM_NAME !in added && HELM_NAMESPACE !in added;
  }

  lemma SameFluxSameVerdict(fleet: Fleet, a: Labels, b: Labels, id: Ident)
    requires SameFlux(a, b)
    ensures Applying(fleet, a, id) == Applying(fleet, b, id)
  {
  }

  /** A decided plan in its parts. */
  ghost predicate Decided(k: Kagent, w: World, listing: seq<string>, model: string, ep: Endpoint, p: Plan)
    requires Listing(w, listing)
  {
    && Names.TrimSpace(model) != "" && Valid(ep)
    && (p.name, p.replaced) == NameAndReplaced(k, w, Find(k, w, listing, ep.backend, model), Target(k, w, model, ep), ep)
    && p.annotations == map[MODEL := model] && p.spec == BuildSpec(p.name, model, ep) && p.secret == PlaceholderNeeded(ep)
    && p.existing == (if p.name in w.configs then Some(w.configs[p.name]) else None)
    && p.labels == (if p.existing.Some? && !IsCreatedHere(k, p.existing.value) then BuildLabels(k, ep) - {INSTANCE}
                    else BuildLabels(k, ep))
    && (p.existing.Some? ==> MayWrite(k, w, p.name))
    && (p.replaced.Some? ==> Applied(k, w, p.replaced.value).None?)
  }

  lemma PlanIsDecided(k: Kagent, w: World, listing: seq<string>, model: string, ep: Endpoint, p: Plan)
    requires Listing(w, listing)
    ensures EnsurePlan(k, w, listing, model, ep) == Done(p) <==> Decided(k, w, listing, model, ep, p)
  {
    if Decided(k, w, listing, model, ep, p) { DecidedIsMade(k, w, listing, model, ep, p); }
    if EnsurePlan(k, w, listing, model, ep) == Done(p) { MadeIsDecided(k, w, listing, model, ep, p); }
  }

  lemma DecidedIsMade(k: Kagent, w: World, listing: seq<string>, model: string, ep: Endpoint, p: Plan)
    requires Listing(w, listing) && Decided(k, w, listing, model, ep, p)
    ensures EnsurePlan(k, w, listing, model, ep) == Done(p)
  {
    assert p == Plan(p.name, p.labels, p.annotations, p.spec, p.secret, p.existing, p.replaced);
    assert MakePlan(k, w, listing, model, ep) == Done(p);
  }

  lemma MadeIsDecided(k: Kagent, w: World, listing: seq<string>, model: string, ep: Endpoint, p: Plan)
    requires Listing(w, listing) && EnsurePlan(k, w, listing, model, ep) == Done(p)
    ensures Decided(k, w, listing, model, ep, p)
  {
    assert MakePlan(k, w, listing, model, ep) == Done(p);
  }

  /** What Ensure wrote is applied by no Flux object: it refused to write over one that is. */
  lemma WrittenIsLive(k: Kagent, w: World, listing: seq<string>, model: string, ep: Endpoint, p: Plan)
    requires Listing(w, listing) && Decided(k, w, listing, model, ep, p)
    ensures Applying(w.fleet, Written(w, p).labels, ConfigId(k, p.name)).None?
  {
    var before := if p.existing.Some? then p.existing.value.labels else map[];
    assert p.labels.Keys <= {MANAGED_BY, BACKEND, INSTANCE};
    WirerLabelsAreNotFlux(before, p.labels);
    assert before + p.labels == Written(w, p).labels;
    SameFluxSameVerdict(w.fleet, Written(w, p).labels, before, ConfigId(k, p.name));
  }

  lemma {:induction false} WritesKeepFleet(k: Kagent, w: World, writes: seq<Write>)
    ensures LandAll(k, w, writes).fleet == w.fleet
    decreases |writes|
  {
    if writes != [] { WritesKeepFleet(k, Land(k, w, writes[0]), writes[1..]); }
  }

  /** The base name, or the suffixed one beside another backend's. */
  function TargetOf(configs: map<string, Config>, base: string, b: Backend): string {
    if base in configs && OtherBackend(configs[base], b) then Names.Suffixed(base, b) else base
  }

  /** What stands at the base name decides, and only a replacement takes it away. */
  lemma TargetStands(before: map<string, Config>, after: map<string, Config>, base: string, b: Backend, replaced: Option<string>, name: string)
    requires name == TargetOf(before, base, b) && name in after && replaced != Some(base)
    requires OtherBackend(after[name], b) ==> name in before && OtherBackend(before[name], b)
    requires forall n :: n in before && n != name && Some(n) != replaced ==> n in after && after[n] == before[n]
    ensures TargetOf(after, base, b) == name
  {
  }

  /** The second Ensure aims at the name the first one wrote, unless the first replaced what
      stood at the base name. */
  lemma SecondTarget(k: Kagent, w: World, model: string, ep: Endpoint, p: Plan, w': World)
    requires w'.configs == WithoutReplaced(w, p)[p.name := Written(w, p)] && p.replaced != Some(BaseName(k, model, ep))
    requires OtherBackend(Written(w, p), ep.backend) ==> p.name in w.configs && OtherBackend(w.configs[p.name], ep.backend)
    requires p.name == Target(k, w, model, ep)
    ensures Target(k, w', model, ep) == p.name
  {
    var base := BaseName(k, model, ep);
    TargetIs(k, w, model, ep, base);
    TargetIs(k, w', model, ep, base);
    TargetStands(w.configs, w'.configs, base, ep.backend, p.replaced, p.name);
  }

  lemma TargetIs(k: Kagent, w: World, model: string, ep: Endpoint, base: string)
    requires base == BaseName(k, model, ep)
    ensures Target(k, w, model, ep) == TargetOf(w.configs, base, ep.backend)
  {
  }

  /** The ModelConfig replaced stood at the base name, beside which this instance wrote one of
      the suffixed name: the next Ensure finds the base name free. */
  predicate Reverts(k: Kagent, w: World, model: string, ep: Endpoint, p: Plan) {
    p.replaced == Some(BaseName(k, model, ep)) && Creator(Written(w, p)) == k.instance
  }

  /** Not for a named backend: what it replaces is its own, and at the base name then stands another's. */
  lemma NamedNeverReverts(k: Kagent, w: World, listing: seq<string>, model: string, ep: Endpoint, p: Plan)
    requires Listing(w, listing) && Decided(k, w, listing, model, ep, p) && ep.backend != ""
    ensures !Reverts(k, w, model, ep, p)
  {
    TargetIs(k, w, model, ep, BaseName(k, model, ep));
  }

  /** What is written says of no backend but the endpoint's or the one it said before. */
  lemma WrittenOther(k: Kagent, w: World, listing: seq<string>, model: string, ep: Endpoint, p: Plan)
    requires Listing(w, listing) && EnsurePlan(k, w, listing, model, ep) == Done(p) && Decided(k, w, listing, model, ep, p)
    ensures OtherBackend(Written(w, p), ep.backend) ==> p.name in w.configs && OtherBackend(w.configs[p.name], ep.backend)
  {
    WrittenMatches(k, w, listing, model, ep);
    if ep.backend == "" { WrittenBackend(k, w, listing, model, ep, p); }
  }

  /** The plan of a repeated Ensure that finds what the first one wrote: the same name and
      content, nothing to replace. */
  lemma SecondPlan(k: Kagent, w: World, listing: seq<string>, model: string, ep: Endpoint, listing': seq<string>, p: Plan)
    requires Listing(w, listing) && EnsurePlan(k, w, listing, model, ep) == Done(p) && !Reverts(k, w, model, ep, p)
    requires Listing(EnsureAll(k, w, listing, model, ep), listing')
    requires Find(k, EnsureAll(k, w, listing, model, ep), listing', ep.backend, model) == Some(p.name)
    ensures EnsurePlan(k, EnsureAll(k, w, listing, model, ep), listing', model, ep)
              == Done(p.(existing := Some(Written(w, p)), replaced := None))
  {
    var w' := EnsureAll(k, w, listing, model, ep);
    EnsureConfigsAll(k, w, p);
    WritesKeepFleet(k, w, EnsureWrites(p));
    WrittenMatches(k, w, listing, model, ep);
    PlanIsDecided(k, w, listing, model, ep, p);
    WrittenOther(k, w, listing, model, ep, p);
    SecondDecision(k, w, listing, model, ep, p, w', listing');
    PlanIsDecided(k, w', listing', model, ep, p.(existing := Some(Written(w, p)), replaced := None));
  }

  lemma SecondDecision(k: Kagent, w: World, listing: seq<string>, model: string, ep: Endpoint, p: Plan, w': World, listing': seq<string>)
    requires Listing(w, listing) && Decided(k, w, listing, model, ep, p) && !Reverts(k, w, model, ep, p)
    requires w'.configs == WithoutReplaced(w, p)[p.name := Written(w, p)] && w'.fleet == w.fleet
    requires OtherBackend(Written(w, p), ep.backend) ==> p.name in w.configs && OtherBackend(w.configs[p.name], ep.backend)
    requires Managed(Written(w, p)) && Listing(w', listing') && Find(k, w', listing', ep.backend, model) == Some(p.name)
    ensures Decided(k, w', listing', model, ep, p.(existing := Some(Written(w, p)), replaced := None))
  {
    var c := Written(w, p);
    assert w'.configs[p.name] == c;
    WrittenIsLive(k, w, listing, model, ep, p);
    SecondCreator(k, w, listing, model, ep, p);
    SecondName(k, w, listing, model, ep, p, w');
  }

  lemma SecondName(k: Kagent, w: World, listing: seq<string>, model: string, ep: Endpoint, p: Plan, w': World)
    requires Listing(w, listing) && Decided(k, w, listing, model, ep, p) && !Reverts(k, w, model, ep, p)
    requires w'.configs == WithoutReplaced(w, p)[p.name := Written(w, p)]
    requires OtherBackend(Written(w, p), ep.backend) ==> p.name in w.configs && OtherBackend(w.configs[p.name], ep.backend)
    requires Creator(Written(w, p)) == if p.existing.Some? then Creator(p.existing.value) else k.instance
    ensures NameAndReplaced(k, w', Some(p.name), Target(k, w', model, ep), ep) == (p.name, None)
  {
    if ep.name != "" && IsCreatedHere(k, Written(w, p)) { SecondTarget(k, w, model, ep, p, w'); }
  }

  /** A created ModelConfig is marked as created here, a written one keeps its mark. */
  lemma SecondCreator(k: Kagent, w: World, listing: seq<string>, model: string, ep: Endpoint, p: Plan)
    requires Listing(w, listing) && Decided(k, w, listing, model, ep, p)
    ensures Creator(Written(w, p)) == if p.existing.Some? then Creator(p.existing.value) else k.instance
  {
    assert INSTANCE in BuildLabels(k, ep) && (INSTANCE == BACKEND || BuildLabels(k, ep)[INSTANCE] == k.instance);
    assert |INSTANCE| != |BACKEND|;
  }

  /** Repeating an Ensure that find answers the first one's ModelConfig to leaves every
      ModelConfig as it is but for the resource version, whatever name the first one replaced,
      but the base name; and then the Secrets, unless the first one created a keyless
      ModelConfig where a stale placeholder Secret of that name lay: only an update takes
      such a Secret away. */
  lemma FoundEnsureTwice(k: Kagent, w: World, listing: seq<string>, model: string, ep: Endpoint, listing': seq<string>, p: Plan)
    requires Listing(w, listing) && EnsurePlan(k, w, listing, model, ep) == Done(p)
    requires Listing(EnsureAll(k, w, listing, model, ep), listing')
    requires Find(k, EnsureAll(k, w, listing, model, ep), listing', ep.backend, model) == Some(p.name)
    ensures var once := EnsureAll(k, w, listing, model, ep);
            var twice := EnsureAll(k, once, listing', model, ep);
            && EnsurePlan(k, once, listing', model, ep).Done?
            && (SameButVersions(once.configs, twice.configs) <==> !Reverts(k, w, model, ep, p))
            && (!Reverts(k, w, model, ep, p) ==>
                  (twice.secrets == once.secrets <==>
                   !(p.existing.None? && !p.secret && SecretGoes(k, ReplacedPart(k, w, p), p.name))))
  {
    if Reverts(k, w, model, ep, p) {
      RevertedPlan(k, w, listing, model, ep, listing', p);
    } else {
      SecondPlan(k, w, listing, model, ep, listing', p);
      PlansSettle(k, w, p);
    }
  }

  /** The plan of a repeated Ensure that finds the base name free. */
  lemma RevertedPlan(k: Kagent, w: World, listing: seq<string>, model: string, ep: Endpoint, listing': seq<string>, p: Plan)
    requires Listing(w, listing) && EnsurePlan(k, w, listing, model, ep) == Done(p) && Reverts(k, w, model, ep, p)
    requires Listing(EnsureAll(k, w, listing, model, ep), listing')
    requires Find(k, EnsureAll(k, w, listing, model, ep), listing', ep.backend, model) == Some(p.name)
    ensures var once := EnsureAll(k, w, listing, model, ep);
            var d := EnsurePlan(k, once, listing', model, ep);
            && d.Done? && d.value.replaced == Some(p.name)
            && p.name in once.configs && p.name !in EnsureAll(k, once, listing', model, ep).configs
  {
    var once := EnsureAll(k, w, listing, model, ep);
    EnsureConfigsAll(k, w, p);
    WritesKeepFleet(k, w, EnsureWrites(p));
    WrittenMatches(k, w, listing, model, ep);
    PlanIsDecided(k, w, listing, model, ep, p);
    WrittenIsLive(k, w, listing, model, ep, p);
    RevertedName(k, w, listing, model, ep, p, once);
    var d := EnsurePlan(k, once, listing', model, ep);
    EnsureConfigsAll(k, once, d.value);
  }

  lemma RevertedName(k: Kagent, w: World, listing: seq<string>, model: string, ep: Endpoint, p: Plan, w': World)
    requires Listing(w, listing) && Decided(k, w, listing, model, ep, p) && Reverts(k, w, model, ep, p)
    requires w'.configs == WithoutReplaced(w, p)[p.name := Written(w, p)] && Managed(Written(w, p))
    ensures Target(k, w', model, ep) !in w'.configs && ep.name != ""
    ensures NameAndReplaced(k, w', Some(p.name), Target(k, w', model, ep), ep) == (Target(k, w', model, ep), Some(p.name))
  {
    var base := BaseName(k, model, ep);
    TargetIs(k, w', model, ep, base);
    assert base != p.name && base !in w'.configs;
  }

  /** So for a named backend, with one match each: it never takes the base name away. */
  lemma EnsureTwice(k: Kagent, w: World, listing: seq<string>, model: string, ep: Endpoint, listing': seq<string>, p: Plan)
    requires Listing(w, listing) && Unique(w.configs) && ep.backend != ""
    requires EnsurePlan(k, w, listing, model, ep) == Done(p)
    requires Listing(EnsureAll(k, w, listing, model, ep), listing')
    ensures var once := EnsureAll(k, w, listing, model, ep);
            var twice := EnsureAll(k, once, listing', model, ep);
            && EnsurePlan(k, once, listing', model, ep).Done?
            && SameButVersions(once.configs, twice.configs)
            && (twice.secrets == once.secrets <==>
                !(p.existing.None? && !p.secret && SecretGoes(k, ReplacedPart(k, w, p), p.name)))
  {
    EnsureThenFind(k, w, listing, model, ep, listing');
    PlanIsDecided(k, w, listing, model, ep, p);
    NamedNeverReverts(k, w, listing, model, ep, p);
    FoundEnsureTwice(k, w, listing, model, ep, listing', p);
  }

  /** A plan and its repetition, as the writes they are. */
  lemma PlansSettle(k: Kagent, w: World, p: Plan)
    ensures var once := LandAll(k, w, EnsureWrites(p));
            var twice := LandAll(k, once, EnsureWrites(p.(existing := Some(Written(w, p)), replaced := None)));
            && SameButVersions(once.configs, twice.configs)
            && (twice.secrets == once.secrets <==>
                !(p.existing.None? && !p.secret && SecretGoes(k, ReplacedPart(k, w, p), p.name)))
  {
    var once := LandAll(k, w, EnsureWrites(p));
    var q := p.(existing := Some(Written(w, p)), replaced := None);
    ConfigsSettle(k, w, p);
    EnsureInParts(k, w, p);
    EnsureInParts(k, once, q);
    assert ReplacedPart(k, once, q) == once;
    SecretsSettle(k, w, p);
  }

  lemma ConfigsSettle(k: Kagent, w: World, p: Plan)
    ensures var once := LandAll(k, w, EnsureWrites(p));
            SameButVersions(once.configs, LandAll(k, once, EnsureWrites(p.(existing := Some(Written(w, p)), replaced := None))).configs)
  {
    var once := LandAll(k, w, EnsureWrites(p));
    var q := p.(existing := Some(Written(w, p)), replaced := None);
    EnsureConfigsAll(k, w, p);
    EnsureConfigsAll(k, once, q);
    WrittenTwice(w, p);
  }

  lemma WrittenTwice(w: World, p: Plan)
    ensures var c := Written(w, p);
            c.labels + p.labels == c.labels && c.annotations + p.annotations == c.annotations
  {
  }

  /** The placeholder Secret after one and after two rounds of the same plan. */
  lemma SecretsSettle(k: Kagent, w: World, p: Plan)
    ensures var m := ReplacedPart(k, w, p);
            var once := ConfigPart(k, SecretPart(k, m, p), p);
            var again := SecretPart(k, once, p.(existing := Some(Written(w, p)), replaced := None));
            again.secrets == once.secrets <==> !(p.existing.None? && !p.secret && SecretGoes(k, m, p.name))
  {
    var m := ReplacedPart(k, w, p);
    var s := SecretPart(k, m, p);
    var once := ConfigPart(k, s, p);
    assert once.secrets == s.secrets && once.fleet == s.fleet == m.fleet;
    var name := Names.PlaceholderSecretName(p.name);
    if p.existing.None? && !p.secret && SecretGoes(k, m, p.name) {
      assert name in once.secrets && name !in once.secrets - {name};
    }
  }

  /** A keyless endpoint's ModelConfig has its placeholder Secret afterwards: the one that was
      there, unless the replaced ModelConfig shared its name and took it along. */
  lemma PlaceholderStands(k: Kagent, w: World, p: Plan)
    requires p.secret
    ensures var s := Names.PlaceholderSecretName(p.name);
            var after := LandAll(k, w, EnsureWrites(p)).secrets;
            && s in after
            && (s in w.secrets && after[s] != w.secrets[s] ==>
                  p.replaced.Some? && Names.PlaceholderSecretName(p.replaced.value) == s && Replaceable(k, w, s)
                  && after[s] == map[MANAGED_BY := MANAGED_VALUE])
            && (forall t :: t != s && t in after ==> t in w.secrets && after[t] == w.secrets[t])
            && (forall t :: t != s && t in w.secrets ==>
                  (t !in after <==> p.replaced.Some? && Names.PlaceholderSecretName(p.replaced.value) == t && Replaceable(k, w, t)))
  {
    var m := ReplacedPart(k, w, p);
    SecretsInParts(k, w, p);
    var s := Names.PlaceholderSecretName(p.name);
    assert SecretPart(k, m, p).secrets == if s in m.secrets then m.secrets else m.secrets[s := map[MANAGED_BY := MANAGED_VALUE]];
  }

  lemma SecretsInParts(k: Kagent, w: World, p: Plan)
    ensures LandAll(k, w, EnsureWrites(p)).secrets == SecretPart(k, ReplacedPart(k, w, p), p).secrets
    ensures ReplacedPart(k, w, p).secrets ==
              if p.replaced.Some? && SecretGoes(k, w, p.replaced.value) then w.secrets - {Names.PlaceholderSecretName(p.replaced.value)}
              else w.secrets
  {
    EnsureInParts(k, w, p);
    if p.replaced.Some? { RemoveInTurn(k, w, p.replaced.value); }
  }

  // ---------------------------------------------------------------- no backend named

  function Sample(backend: string, uid: nat): Config {
    Config(map[MANAGED_BY := MANAGED_VALUE, INSTANCE := "i", BACKEND := backend], map[MODEL := "m"],
           Spec("OpenAI", "m", "", "", 0, None, false, "", ""), uid, uid)
  }

  lemma SampleLabels(backend: string, uid: nat)
    ensures Managed(Sample(backend, uid)) && Creator(Sample(backend, uid)) == "i"
    ensures Get(Sample(backend, uid).labels, BACKEND) == backend
    ensures OwnerOf(Sample(backend, uid).labels).None?
  {
    assert |MANAGED_BY| != |INSTANCE| && |MANAGED_BY| != |BACKEND| && |INSTANCE| != |BACKEND|;
    var c := Sample(backend, uid);
    WirerLabelsAreNotFlux(map[], c.labels);
    assert map[] + c.labels == c.labels;
  }

  function SampleKagent(fnv: string -> nat): Kagent { Kagent("i", "", "ns", fnv) }

  function SampleWorld(): World { World(map["a" := Sample("x", 0), "b" := Sample("y", 1)], map[], map[], [], 2) }

  function SampleEndpoint(): Endpoint {
    Endpoint("OpenAI", "", "", "", "m", false, false, "", "", "c", 0, None)
  }

  function SamplePlan(fnv: string -> nat): Plan {
    Plan("c", map[MANAGED_BY := MANAGED_VALUE, INSTANCE := "i"], map[MODEL := "m"],
         BuildSpec("c", "m", SampleEndpoint()), false, None, Some("a"))
  }

  lemma SampleDecision(fnv: string -> nat)
    ensures Listing(SampleWorld(), ["a", "b"])
    ensures EnsurePlan(SampleKagent(fnv), SampleWorld(), ["a", "b"], "m", SampleEndpoint()) == Done(SamplePlan(fnv))
  {
    var k, w, listing, ep := SampleKagent(fnv), SampleWorld(), ["a", "b"], SampleEndpoint();
    SampleLabels("x", 0);
    SampleLabels("y", 1);
    assert Listing(w, listing);
    assert Annotated(w.configs[listing[0]], "", "m");
    assert Find(k, w, listing, "", "m") == Some("a");
    assert Target(k, w, "m", ep) == "c";
    assert Names.TrimSpace("m") == "m";
    assert BuildLabels(k, ep) == SamplePlan(fnv).labels;
    PlanIsDecided(k, w, listing, "m", ep, SamplePlan(fnv));
  }

  /** Without a backend the replacement can clash: one model wired on two backends,
      one of its ModelConfigs replaced by one that says no backend. */
  lemma UnnamedBackendClashes(fnv: string -> nat)
    ensures Listing(SampleWorld(), ["a", "b"]) && SampleEndpoint().backend == ""
    ensures EnsurePlan(SampleKagent(fnv), SampleWorld(), ["a", "b"], "m", SampleEndpoint()) == Done(SamplePlan(fnv))
    ensures Unique(SampleWorld().configs) && Clash(SampleKagent(fnv), SampleWorld(), ["a", "b"], "m", SampleEndpoint())
    ensures !Unique(EnsureAll(SampleKagent(fnv), SampleWorld(), ["a", "b"], "m", SampleEndpoint()).configs)
  {
    SampleDecision(fnv);
    SampleLabels("x", 0);
    SampleLabels("y", 1);
    var k, w, listing, ep := SampleKagent(fnv), SampleWorld(), ["a", "b"], SampleEndpoint();
    PlanIsDecided(k, w, listing, "m", ep, SamplePlan(fnv));
    assert Replacing(k, w, listing, "m", ep) && Find(k, w, listing, "", "m") == Some("a") && Target(k, w, "m", ep) == "c";
    assert "b" in w.configs && IsFurther(w, "b", "m", "a", "c");
    EnsureUniqueIff(k, w, listing, "m", ep);
  }

  // ---------------------------------------------------------------- repeats that are not quiet

  /** One managed ModelConfig of model "m", or none, and the Secrets given. */
  function SmallWorld(configs: map<string, Config>, secrets: map<string, Labels>): World { World(configs, secrets, map[], [], 2) }

  function NamedEndpoint(backend: Backend, name: string): Endpoint {
    Endpoint("OpenAI", backend, "", "", "m", false, false, "", "", name, 0, None)
  }

  lemma ManagedSecretGoes(k: Kagent, w: World, config: string)
    requires Names.PlaceholderSecretName(config) in w.secrets
    requires w.secrets[Names.PlaceholderSecretName(config)] == map[MANAGED_BY := MANAGED_VALUE]
    ensures SecretGoes(k, w, config)
  {
    var labels := map[MANAGED_BY := MANAGED_VALUE];
    WirerLabelsAreNotFlux(map[], labels);
    assert map[] + labels == labels;
    SameFluxSameVerdict(w.fleet, labels, map[], Ident(k.namespace, Names.PlaceholderSecretName(config), "", "Secret"));
  }

  /** A first Ensure of a name nobody carries. */
  lemma FirstPlan(k: Kagent, w: World, ep: Endpoint) returns (p: Plan)
    requires w.configs == map[] && k.prefix == "" && ep.name != "" && Valid(ep)
    ensures Listing(w, []) && EnsurePlan(k, w, [], "m", ep) == Done(p)
    ensures p.name == ep.name && p.existing.None? && p.replaced.None? && p.secret == PlaceholderNeeded(ep)
  {
    assert Names.TrimSpace("m") == "m";
    p := EnsurePlan(k, w, [], "m", ep).value;
  }

  /** A ModelConfig that needs no key, created where a Secret lies from before: the first
      Ensure leaves the Secret, the second takes it away. */
  lemma StaleSecretGoesLate(fnv: string -> nat)
    ensures var k, ep := SampleKagent(fnv), NamedEndpoint("x", "c");
            var w := SmallWorld(map[], map[Names.PlaceholderSecretName("c") := map[MANAGED_BY := MANAGED_VALUE]]);
            && Listing(w, []) && EnsurePlan(k, w, [], "m", ep).Done?
            && var once := EnsureAll(k, w, [], "m", ep);
               forall listing' :: Listing(once, listing') ==> EnsureAll(k, once, listing', "m", ep).secrets != once.secrets
  {
    var k, ep := SampleKagent(fnv), NamedEndpoint("x", "c");
    var w := SmallWorld(map[], map[Names.PlaceholderSecretName("c") := map[MANAGED_BY := MANAGED_VALUE]]);
    var p := FirstPlan(k, w, ep);
    ManagedSecretGoes(k, w, "c");
    var once := EnsureAll(k, w, [], "m", ep);
    forall listing' | Listing(once, listing') ensures EnsureAll(k, once, listing', "m", ep).secrets != once.secrets {
      EnsureTwice(k, w, [], "m", ep, listing', p);
    }
  }

  /** An endpoint that names no backend and the name of a ModelConfig that has one: the first
      Ensure replaces it, the second replaces the replacement. */
  lemma UnnamedEnsureReverts(fnv: string -> nat)
    ensures var k, ep, w := SampleKagent(fnv), NamedEndpoint("", "a"), SmallWorld(map["a" := Sample("x", 0)], map[]);
            && Listing(w, ["a"]) && EnsurePlan(k, w, ["a"], "m", ep).Done?
            && var once := EnsureAll(k, w, ["a"], "m", ep);
               forall listing' :: Listing(once, listing') ==>
                 !SameButVersions(once.configs, EnsureAll(k, once, listing', "m", ep).configs)
  {
    var k, ep, w := SampleKagent(fnv), NamedEndpoint("", "a"), SmallWorld(map["a" := Sample("x", 0)], map[]);
    SampleLabels("x", 0);
    var p := RevertingPlan(k, w, ep, "a");
    var once := EnsureAll(k, w, ["a"], "m", ep);
    UnnamedEnsureThenFind(k, w, ["a"], "m", ep);
    forall listing' | Listing(once, listing') ensures !SameButVersions(once.configs, EnsureAll(k, once, listing', "m", ep).configs) {
      FoundEnsureTwice(k, w, ["a"], "m", ep, listing', p);
    }
  }

  lemma RevertingPlan(k: Kagent, w: World, ep: Endpoint, a: string) returns (p: Plan)
    requires w.configs.Keys == {a} && IsOfModel(w.configs[a], "m") && IsCreatedHere(k, w.configs[a]) && Applied(k, w, a).None?
    requires Get(w.configs[a].labels, BACKEND) != "" && a != "" && |a| < 62 && a[|a| - 1] != '-'
    requires k.prefix == "" && ep.name == a && ep.backend == "" && Valid(ep)
    ensures Listing(w, [a]) && EnsurePlan(k, w, [a], "m", ep) == Done(p) && Reverts(k, w, "m", ep, p)
    ensures p.replaced == Some(a)
  {
    assert Names.TrimSpace("m") == "m";
    assert Find(k, w, [a], "", "m") == Some(a);
    Text.TrimRightNoop(a, '-');
    assert Target(k, w, "m", ep) == a + "-" && |a + "-"| != |a|;
    p := EnsurePlan(k, w, [a], "m", ep).value;
    PlanIsDecided(k, w, [a], "m", ep, p);
    SecondCreator(k, w, [a], "m", ep, p);
  }
}
