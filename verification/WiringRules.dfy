/** What the wirer's calls refuse, delete and write, read off the objects: labels, what the
    Kustomizations recorded, the fields of the referencing objects (internal/wiring/kagent.go). */
module WiringRules {
  import opened Basics
  import opened Flux
  import opened Wiring
  import opened WiringOwnership
  import WiringIdentity
  import WiringRemoval
  import Names

  /** Git declares the ModelConfig. */
  ghost predicate FromGit(k: Kagent, w: World, name: string, o: Owner)
    requires name in w.configs
  {
    Declares(w.fleet, w.configs[name].labels, Ident(k.namespace, name, "api.kagent.dev", "ModelConfig"), o)
  }

  lemma AppliedFromGit(k: Kagent, w: World, name: string)
    requires name in w.configs
    ensures forall o :: Applied(k, w, name) == Some(o) <==> FromGit(k, w, name, o)
    ensures Applied(k, w, name).Some? ==> FromGit(k, w, name, Applied(k, w, name).value)
  {
    forall o ensures Applied(k, w, name) == Some(o) <==> FromGit(k, w, name, o) {
      ApplyingDeclares(w.fleet, w.configs[name].labels, ConfigId(k, name), o);
    }
  }

  /** An Ensure whose plan is made refuses as git's exactly when git declares the ModelConfig it
      would write over, or, that one being live, the one it would replace. */
  lemma EnsureRefusesGit(k: Kagent, w: World, listing: seq<string>, model: string, ep: Endpoint, o: Owner)
    requires Listing(w, listing) && MakePlan(k, w, listing, model, ep).Done?
    ensures var p := MakePlan(k, w, listing, model, ep).value;
            && (p.existing.Some? ==> p.name in w.configs) && (p.replaced.Some? ==> p.replaced.value in w.configs)
            && (EnsurePlan(k, w, listing, model, ep) == Refused(GitOpsOwned(o)) <==>
                (p.existing.Some? && FromGit(k, w, p.name, o))
                || (p.replaced.Some? && FromGit(k, w, p.replaced.value, o)
                    && (p.existing.Some? ==> forall other :: !FromGit(k, w, p.name, other))))
  {
    var p := MakePlan(k, w, listing, model, ep).value;
    if p.existing.Some? { AppliedFromGit(k, w, p.name); }
    if p.replaced.Some? { AppliedFromGit(k, w, p.replaced.value); }
  }

  /** A Remove, and its dry run, exactly when git declares the one find answers. */
  lemma RemoveRefusesGit(k: Kagent, w: World, listing: seq<string>, b: Backend, model: string, scope: Scope, o: Owner)
    requires Listing(w, listing)
    ensures var found := Find(k, w, listing, b, model);
            && (RemoveDecision(k, w, listing, b, model, scope) == Refused(GitOpsOwned(o)) <==>
                found.Some? && FromGit(k, w, found.value, o))
            && (WiringRemoval.Removal(k, w, listing, b, model, scope).gitOps == Some(o) <==>
                found.Some? && FromGit(k, w, found.value, o))
  {
    var found := Find(k, w, listing, b, model);
    if found.Some? { AppliedFromGit(k, w, found.value); }
  }

  /** In every run no call touches a ModelConfig that git declares. */
  lemma GitUntouched(states: seq<World>, actions: seq<Action>, i: nat, name: string, o: Owner)
    requires IsRun(states, actions) && i < |actions| && !actions[i].Outside?
    requires name in states[i].configs && FromGit(actions[i].k, states[i], name, o)
    ensures name in states[i + 1].configs && states[i + 1].configs[name] == states[i].configs[name]
  {
    AppliedFromGit(actions[i].k, states[i], name);
    ForeignUntouched(states, actions, i, name);
  }

  /** Nor a Secret that git declares. */
  lemma GitSecretsUntouched(states: seq<World>, actions: seq<Action>, i: nat, name: string, o: Owner)
    requires IsRun(states, actions) && i < |actions| && !actions[i].Outside?
    requires name in states[i].secrets
    requires Declares(states[i].fleet, states[i].secrets[name], Ident(actions[i].k.namespace, name, "", "Secret"), o)
    ensures name in states[i + 1].secrets && states[i + 1].secrets[name] == states[i].secrets[name]
  {
    ApplyingDeclares(states[i].fleet, states[i].secrets[name], Ident(actions[i].k.namespace, name, "", "Secret"), o);
    ForeignSecretsUntouched(states, actions, i, name);
  }

  /** Some object the kagent API serves says the ModelConfig somewhere. */
  ghost predicate SaidSomewhere(w: World, namespace: string, name: string) {
    exists r, path, i :: r in w.referrers && ReferenceAt(r, path, i, namespace, name)
  }

  lemma ReferencedIsSaid(k: Kagent, w: World, name: string)
    ensures Referenced(k, w, name) <==> SaidSomewhere(w, k.namespace, name)
  {
    forall r | r in w.referrers
      ensures References(r, k.namespace, name) <==> exists path, i :: ReferenceAt(r, path, i, k.namespace, name)
    {
      ReferencesAnywhere(r, k.namespace, name);
    }
  }

  /** What a Remove deletes of the one find answers, when git declares it not: this instance's; in
      scope Unclaimed also one that carries no instance, exactly when nothing says it. */
  lemma RemoveDeletes(k: Kagent, w: World, listing: seq<string>, b: Backend, model: string, scope: Scope, name: string)
    requires Listing(w, listing) && Find(k, w, listing, b, model) == Some(name) && forall o :: !FromGit(k, w, name, o)
    ensures var creator := Get(w.configs[name].labels, "model-manager.giantswarm.io/instance");
            && (RemoveDecision(k, w, listing, b, model, scope) == Done(Some(name)) <==>
                creator == k.instance || (scope == Unclaimed && creator == "" && !SaidSomewhere(w, k.namespace, name)))
            && (RemoveDecision(k, w, listing, b, model, scope) != Done(Some(name)) ==>
                RemoveDecision(k, w, listing, b, model, scope) == Refused(NotOwned(creator)))
  {
    AppliedFromGit(k, w, name);
    ReferencedIsSaid(k, w, name);
  }

  /** The name an Ensure writes under, and the ModelConfig it replaces: of the model's, the one found
      keeps its name, unless the endpoint chose another and this instance created it; of a new
      one, the chosen or derived name, with the backend behind it beside another backend's. */
  ghost predicate IsNameFor(k: Kagent, w: World, listing: seq<string>, model: string, ep: Endpoint, name: string, replaced: Option<string>)
    requires Listing(w, listing)
  {
    var base := if ep.name == "" then Names.Derived(k.prefix, model, k.fnv)
                else if k.prefix != "" then Names.Derived(k.prefix, ep.name, k.fnv) else ep.name;
    var taken := base in w.configs && Get(w.configs[base].labels, "app.kubernetes.io/managed-by") == "model-manager"
                 && Get(w.configs[base].labels, "model-manager.giantswarm.io/backend") !in {"", ep.backend};
    var target := if taken then Names.Suffixed(base, ep.backend) else base;
    match Find(k, w, listing, ep.backend, model)
    case None => name == target && replaced == None
    case Some(found) =>
      if ep.name != "" && found != target && Get(w.configs[found].labels, "model-manager.giantswarm.io/instance") == k.instance
      then name == target && replaced == Some(found)
      else name == found && replaced == None
  }

  /** What makes an Ensure refuse but git: an empty model, a key that contradicts itself, and under
      the name it would write an object that is not managed or another instance's. */
  lemma EnsureDecides(k: Kagent, w: World, listing: seq<string>, model: string, ep: Endpoint, name: string, replaced: Option<string>)
    requires Listing(w, listing) && IsNameFor(k, w, listing, model, ep, name, replaced)
    ensures var invalid := Names.TrimSpace(model) == "" || (ep.passthrough && ep.keySecret != "") || (ep.keyName != "" && ep.keySecret == "");
            var managed := name in w.configs && Get(w.configs[name].labels, "app.kubernetes.io/managed-by") == "model-manager";
            var creator := if name in w.configs then Get(w.configs[name].labels, "model-manager.giantswarm.io/instance") else "";
            var d := EnsurePlan(k, w, listing, model, ep);
            && (d == Refused(Invalid) <==> invalid)
            && (d == Refused(NotManaged) <==> !invalid && name in w.configs && !managed)
            && (forall who :: d == Refused(NotOwned(who)) <==> !invalid && managed && who == creator && who !in {"", k.instance})
            && (d.Done? ==> d.value.name == name && d.value.replaced == replaced
                            && (d.value.existing.Some? <==> name in w.configs))
  {
    NameIs(k, w, listing, model, ep, name, replaced);
    PlanDecides(k, w, listing, model, ep, name, replaced);
    GitRefusesLast(k, w, listing, model, ep);
  }

  lemma NameIs(k: Kagent, w: World, listing: seq<string>, model: string, ep: Endpoint, name: string, replaced: Option<string>)
    requires Listing(w, listing) && IsNameFor(k, w, listing, model, ep, name, replaced)
    ensures NameAndReplaced(k, w, Find(k, w, listing, ep.backend, model), Target(k, w, model, ep), ep) == (name, replaced)
  {
  }

  lemma PlanDecides(k: Kagent, w: World, listing: seq<string>, model: string, ep: Endpoint, name: string, replaced: Option<string>)
    requires Listing(w, listing)
    requires NameAndReplaced(k, w, Find(k, w, listing, ep.backend, model), Target(k, w, model, ep), ep) == (name, replaced)
    ensures var invalid := Names.TrimSpace(model) == "" || (ep.passthrough && ep.keySecret != "") || (ep.keyName != "" && ep.keySecret == "");
            var d := MakePlan(k, w, listing, model, ep);
            if invalid then d == Refused(Invalid)
            else if name !in w.configs then d.Done? && d.value.name == name && d.value.replaced == replaced && d.value.existing == None
            else if Get(w.configs[name].labels, MANAGED_BY) != MANAGED_VALUE then d == Refused(NotManaged)
            else if Get(w.configs[name].labels, INSTANCE) !in {"", k.instance} then d == Refused(NotOwned(Get(w.configs[name].labels, INSTANCE)))
            else d.Done? && d.value.name == name && d.value.replaced == replaced && d.value.existing.Some?
  {
  }

  lemma GitRefusesLast(k: Kagent, w: World, listing: seq<string>, model: string, ep: Endpoint)
    requires Listing(w, listing)
    ensures var made, d := MakePlan(k, w, listing, model, ep), EnsurePlan(k, w, listing, model, ep);
            && (made.Refused? ==> d == made)
            && (made.Done? ==> d == made || (d.Refused? && d.why.GitOpsOwned?))
  {
  }

  /** The ModelConfig an Ensure without an API fault leaves says the model, the endpoint as far as
      its provider has it, and one key: none under passthrough, else the endpoint's own, else a
      placeholder's, whose Secret is there; its labels and annotations else are as before. */
  lemma EnsureLeaves(k: Kagent, w: World, listing: seq<string>, model: string, ep: Endpoint)
    requires Listing(w, listing) && EnsurePlan(k, w, listing, model, ep).Done?
    ensures var name := EnsurePlan(k, w, listing, model, ep).value.name;
            var after := EnsureAll(k, w, listing, model, ep);
            && name in after.configs
            && SaysModel(after.configs[name], model, ep) && SaysKey(after.configs[name], ep, after.secrets)
            && LabelledFor(k, after.configs[name], if name in w.configs then Some(w.configs[name]) else None, ep)
            && (!ep.placeholder || ep.passthrough || ep.keySecret != "" ==>
                  forall s :: s in after.secrets ==> s in w.secrets && after.secrets[s] == w.secrets[s])
  {
    var p := EnsurePlan(k, w, listing, model, ep).value;
    EnsureConfigsAll(k, w, p);
    WiringIdentity.WrittenMatches(k, w, listing, model, ep);
    WiringIdentity.PlanIsDecided(k, w, listing, model, ep, p);
    if p.secret { WiringIdentity.PlaceholderStands(k, w, p); } else { NoSecretAdded(k, w, p); }
    WrittenSays(k, w, p, model, ep);
    LabelsAre(k, w, listing, model, ep, p);
  }

  lemma NoSecretAdded(k: Kagent, w: World, p: Plan)
    requires !p.secret
    ensures var after := LandAll(k, w, EnsureWrites(p)).secrets; forall s :: s in after ==> s in w.secrets && after[s] == w.secrets[s]
  {
    WiringIdentity.SecretsInParts(k, w, p);
  }

  /** The model under its reference, and what its provider reads. */
  ghost predicate SaysModel(c: Config, model: string, ep: Endpoint) {
    && Get(c.annotations, "model-manager.giantswarm.io/model") == model
    && c.spec.provider == ep.provider
    && (ep.model != "" ==> c.spec.model == ep.model) && (ep.model == "" ==> c.spec.model == model)
    && (ep.provider == "Ollama" ==> c.spec.host == ep.host && c.spec.think == ep.think && c.spec.numCtx == Max(ep.contextLength, 0))
    && (ep.provider != "Ollama" ==> c.spec.host == "" && c.spec.think == None && c.spec.numCtx == 0)
    && (ep.provider == "OpenAI" ==> c.spec.baseUrl == ep.baseUrl) && (ep.provider != "OpenAI" ==> c.spec.baseUrl == "")
  }

  ghost predicate SaysKey(c: Config, ep: Endpoint, secrets: map<string, Labels>) {
    && c.spec.passthrough == ep.passthrough
    && (ep.passthrough || (ep.keySecret == "" && !ep.placeholder) ==> c.spec.keySecret == "" && c.spec.keyName == "")
    && (!ep.passthrough && ep.keySecret != "" ==>
          c.spec.keySecret == ep.keySecret && c.spec.keyName == (if ep.keyName != "" then ep.keyName else "OPENAI_API_KEY"))
    && (!ep.passthrough && ep.keySecret == "" && ep.placeholder ==>
          c.spec.keySecret in secrets && c.spec.keyName == "OPENAI_API_KEY")
  }

  /** Managed, of the endpoint's backend, created by this instance or whoever created it before. */
  ghost predicate LabelledFor(k: Kagent, c: Config, before: Option<Config>, ep: Endpoint) {
    && Get(c.labels, "app.kubernetes.io/managed-by") == "model-manager"
    && (ep.backend != "" ==> Get(c.labels, "model-manager.giantswarm.io/backend") == ep.backend)
    && Get(c.labels, "model-manager.giantswarm.io/instance")
         == (if before.Some? then Get(before.value.labels, "model-manager.giantswarm.io/instance") else k.instance)
    && (before.Some? ==> c.uid == before.value.uid && KeepsOther(before.value, c))
  }

  ghost predicate KeepsOther(before: Config, c: Config) {
    && (forall l :: l in before.labels && l !in {MANAGED_BY, BACKEND, INSTANCE} ==> l in c.labels && c.labels[l] == before.labels[l])
    && (forall a :: a in before.annotations && a != MODEL ==> a in c.annotations && c.annotations[a] == before.annotations[a])
  }

  lemma WrittenSays(k: Kagent, w: World, p: Plan, model: string, ep: Endpoint)
    requires p.spec == BuildSpec(p.name, model, ep) && p.annotations == map[MODEL := model]
    ensures SaysModel(Written(w, p), model, ep)
    ensures forall secrets :: (PlaceholderNeeded(ep) ==> Names.PlaceholderSecretName(p.name) in secrets) ==>
              SaysKey(Written(w, p), ep, secrets)
  {
  }

  lemma LabelsAre(k: Kagent, w: World, listing: seq<string>, model: string, ep: Endpoint, p: Plan)
    requires Listing(w, listing) && EnsurePlan(k, w, listing, model, ep) == Done(p) && WiringIdentity.Decided(k, w, listing, model, ep, p)
    ensures LabelledFor(k, Written(w, p), if p.name in w.configs then Some(w.configs[p.name]) else None, ep)
  {
    WiringIdentity.WrittenMatches(k, w, listing, model, ep);
    WiringIdentity.SecondCreator(k, w, listing, model, ep, p);
    PlanKeys(k, ep, p.labels);
    if p.name in w.configs { WrittenKeeps(w, p, model); }
  }

  lemma PlanKeys(k: Kagent, ep: Endpoint, labels: Labels)
    requires labels == BuildLabels(k, ep) || labels == BuildLabels(k, ep) - {INSTANCE}
    ensures labels.Keys <= {MANAGED_BY, BACKEND, INSTANCE}
  {
  }

  lemma WrittenKeeps(w: World, p: Plan, model: string)
    requires p.name in w.configs && p.existing == Some(w.configs[p.name])
    requires p.labels.Keys <= {MANAGED_BY, BACKEND, INSTANCE} && p.annotations == map[MODEL := model]
    ensures Written(w, p).uid == w.configs[p.name].uid && KeepsOther(w.configs[p.name], Written(w, p))
  {
  }
}
