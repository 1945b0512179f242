/** The wirer over kagent's ModelConfigs (internal/wiring/kagent.go), one API
    version in use. A call is decided against the cluster (plan, find, kept) and
    then lands a list of writes one after another; an API fault ends the call
    after any number of them. */
module Wiring {
  import opened Basics
  import opened Flux
  import Names

  const MANAGED_BY := "app.kubernetes.io/managed-by"
  const MANAGED_VALUE := "model-manager"
  const BACKEND := "model-manager.giantswarm.io/backend"
  const MODEL := "model-manager.giantswarm.io/model"
  const INSTANCE := "model-manager.giantswarm.io/instance"
  const GROUP := "api.kagent.dev"
  const SECRET_KEY := "OPENAI_API_KEY"

  /** A backend's name; one of 63 characters or more has no place in a suffix. */
  type Backend = b: string | |b| < Names.MAX_NAME_LENGTH

  /** A ModelConfig's spec: the fields model-manager writes. */
  datatype Spec = Spec(provider: string, model: string, host: string, baseUrl: string, numCtx: int,
                       think: Option<bool>, passthrough: bool, keySecret: string, keyName: string)

  /** A ModelConfig; uid is the object's identity, version its resource version. */
  datatype Config = Config(labels: Labels, annotations: Labels, spec: Spec, uid: nat, version: nat)

  datatype Endpoint = Endpoint(provider: string, backend: Backend, host: string, baseUrl: string, model: string,
                               placeholder: bool, passthrough: bool, keySecret: string, keyName: string,
                               name: string, contextLength: int, think: Option<bool>)

  /** A kagent object's spec, as decoded JSON. */
  datatype Json = Object(fields: seq<(string, Json)>) | Array(items: seq<Json>) | Text(text: string) | Scalar

  /** The namespace the wirers share, and the Flux objects of the cluster. */
  datatype World = World(configs: map<string, Config>, secrets: map<string, Labels>, fleet: Fleet,
                         referrers: seq<Json>, clock: nat)

  /** What InstanceName makes of an instance's name: never empty. */
  type Instance = s: string | s != "" witness "model-manager"

  /** One model-manager instance's wirer. */
  datatype Kagent = Kagent(instance: Instance, prefix: string, namespace: string, fnv: string -> nat)

  datatype Scope = CreatedHere | Unclaimed

  datatype Refusal = Invalid | NotManaged | NotOwned(createdBy: string) | GitOpsOwned(owner: Owner)
  datatype Outcome<+T> = Done(value: T) | Refused(why: Refusal)

  predicate Managed(c: Config) { Get(c.labels, MANAGED_BY) == MANAGED_VALUE }

  function Creator(c: Config): string { Get(c.labels, INSTANCE) }

  predicate IsCreatedHere(k: Kagent, c: Config) { Managed(c) && Creator(c) == k.instance }

  predicate BackendMatches(c: Config, b: string) {
    b == "" || Get(c.labels, BACKEND) == "" || Get(c.labels, BACKEND) == b
  }

  predicate OtherBackend(c: Config, b: string) {
    Managed(c) && Get(c.labels, BACKEND) != "" && Get(c.labels, BACKEND) != b
  }

  predicate Annotated(c: Config, b: string, model: string) {
    Get(c.annotations, MODEL) == model && BackendMatches(c, b)
  }

  function ConfigId(k: Kagent, name: string): Ident { Ident(k.namespace, name, GROUP, "ModelConfig") }

  function Applied(k: Kagent, w: World, name: string): Option<Owner>
    requires name in w.configs
  {
    Applying(w.fleet, w.configs[name].labels, ConfigId(k, name))
  }

  // ---------------------------------------------------------------- find

  /** What List answers with the managed-by selector: the managed names, in any order. */
  ghost predicate Listing(w: World, listing: seq<string>) {
    && (forall n :: n in listing <==> n in w.configs && Managed(w.configs[n]))
    && (forall i, j :: 0 <= i < j < |listing| ==> listing[i] != listing[j])
  }

  function FirstAnnotated(configs: map<string, Config>, items: seq<string>, b: Backend, model: string): (r: Option<string>)
    requires forall n :: n in items ==> n in configs
    ensures r.Some? ==> r.value in items && Annotated(configs[r.value], b, model)
    ensures r.None? ==> forall n :: n in items ==> !Annotated(configs[n], b, model)
  {
    if items == [] then None
    else if Annotated(configs[items[0]], b, model) then Some(items[0])
    else FirstAnnotated(configs, items[1..], b, model)
  }

  /** match: the annotation first, the derived name second. */
  function Match(k: Kagent, configs: map<string, Config>, items: seq<string>, b: Backend, model: string): (r: Option<string>)
    requires forall n :: n in items ==> n in configs
    ensures r.Some? ==> r.value in items && BackendMatches(configs[r.value], b)
  {
    var hit := FirstAnnotated(configs, items, b, model);
    var name := Names.Derived(k.prefix, model, k.fnv);
    if hit.Some? then hit
    else if name in items && BackendMatches(configs[name], b) then Some(name)
    else None
  }

  function Find(k: Kagent, w: World, listing: seq<string>, b: Backend, model: string): (r: Option<string>)
    requires Listing(w, listing)
    ensures r.Some? ==> r.value in w.configs && Managed(w.configs[r.value]) && BackendMatches(w.configs[r.value], b)
  {
    Match(k, w.configs, listing, b, model)
  }

  // ---------------------------------------------------------------- plan

  predicate Valid(ep: Endpoint) {
    !(ep.passthrough && ep.keySecret != "") && !(ep.keyName != "" && ep.keySecret == "")
  }

  function BaseName(k: Kagent, model: string, ep: Endpoint): string {
    if ep.name == "" then Names.Derived(k.prefix, model, k.fnv)
    else if k.prefix == "" then ep.name
    else Names.Derived(k.prefix, ep.name, k.fnv)
  }

  function Target(k: Kagent, w: World, model: string, ep: Endpoint): string {
    var base := BaseName(k, model, ep);
    if base in w.configs && OtherBackend(w.configs[base], ep.backend) then Names.Suffixed(base, ep.backend) else base
  }

  predicate PlaceholderNeeded(ep: Endpoint) { ep.placeholder && !ep.passthrough && ep.keySecret == "" }

  function BuildSpec(name: string, model: string, ep: Endpoint): Spec {
    Spec(ep.provider,
         if ep.model == "" then model else ep.model,
         if ep.provider == "Ollama" then ep.host else "",
         if ep.provider == "OpenAI" then ep.baseUrl else "",
         if ep.provider == "Ollama" && ep.contextLength > 0 then ep.contextLength else 0,
         if ep.provider == "Ollama" then ep.think else None,
         ep.passthrough,
         if ep.passthrough then "" else if ep.keySecret != "" then ep.keySecret
         else if ep.placeholder then Names.PlaceholderSecretName(name) else "",
         if ep.passthrough then "" else if ep.keySecret != "" then (if ep.keyName == "" then SECRET_KEY else ep.keyName)
         else if ep.placeholder then SECRET_KEY else "")
  }

  function BuildLabels(k: Kagent, ep: Endpoint): Labels {
    map[MANAGED_BY := MANAGED_VALUE, INSTANCE := k.instance]
      + (if ep.backend != "" then map[BACKEND := ep.backend] else map[])
  }

  /** wirePlan: the name, what the ModelConfig is to carry, the one there now,
      and the older one a backend-chosen name takes over. */
  datatype Plan = Plan(name: string, labels: Labels, annotations: Labels, spec: Spec, secret: bool,
                       existing: Option<Config>, replaced: Option<string>)

  function NameAndReplaced(k: Kagent, w: World, prior: Option<string>, target: string, ep: Endpoint): (string, Option<string>)
    requires prior.Some? ==> prior.value in w.configs
  {
    if prior.None? then (target, None)
    else if ep.name != "" && prior.value != target && IsCreatedHere(k, w.configs[prior.value]) then (target, prior)
    else (prior.value, None)
  }

  function MakePlan(k: Kagent, w: World, listing: seq<string>, model: string, ep: Endpoint): Outcome<Plan>
    requires Listing(w, listing)
  {
    if Names.TrimSpace(model) == "" || !Valid(ep) then Refused(Invalid)
    else
      var prior := Find(k, w, listing, ep.backend, model);
      var (name, replaced) := NameAndReplaced(k, w, prior, Target(k, w, model, ep), ep);
      var labels := BuildLabels(k, ep);
      var plan := Plan(name, labels, map[MODEL := model], BuildSpec(name, model, ep), PlaceholderNeeded(ep), None, replaced);
      if name !in w.configs then Done(plan)
      else
        var existing := w.configs[name];
        if !Managed(existing) then Refused(NotManaged)
        else if Creator(existing) != "" && Creator(existing) != k.instance then Refused(NotOwned(Creator(existing)))
        else Done(plan.(existing := Some(existing),
                        labels := if IsCreatedHere(k, existing) then labels else labels - {INSTANCE}))
  }

  // ---------------------------------------------------------------- writes

  /** One write of a call, decided against the cluster it meets. */
  datatype Write =
    | DropConfig(name: string)
    | DropSecret(config: string)
    | KeepSecret(config: string)
    | CreateConfig(name: string, labels: Labels, annotations: Labels, spec: Spec)
    | UpdateConfig(name: string, labels: Labels, annotations: Labels, spec: Spec, uid: nat)

  /** removePlaceholderSecret deletes a managed Secret nothing applies. */
  predicate SecretGoes(k: Kagent, w: World, config: string) {
    var name := Names.PlaceholderSecretName(config);
    && name in w.secrets && Get(w.secrets[name], MANAGED_BY) == MANAGED_VALUE
    && Applying(w.fleet, w.secrets[name], Ident(k.namespace, name, "", "Secret")).None?
  }

  function Land(k: Kagent, w: World, write: Write): World {
    match write
    case DropConfig(name) => w.(configs := w.configs - {name})
    case DropSecret(config) =>
      if SecretGoes(k, w, config) then w.(secrets := w.secrets - {Names.PlaceholderSecretName(config)}) else w
    case KeepSecret(config) =>
      if Names.PlaceholderSecretName(config) in w.secrets then w
      else w.(secrets := w.secrets[Names.PlaceholderSecretName(config) := map[MANAGED_BY := MANAGED_VALUE]])
    case CreateConfig(name, labels, annotations, spec) =>
      w.(configs := w.configs[name := Config(labels, annotations, spec, w.clock, w.clock)], clock := w.clock + 1)
    case UpdateConfig(name, labels, annotations, spec, uid) =>
      w.(configs := w.configs[name := Config(labels, annotations, spec, uid, w.clock)], clock := w.clock + 1)
  }

  function LandAll(k: Kagent, w: World, writes: seq<Write>): World
    decreases |writes|
  {
    if writes == [] then w else LandAll(k, Land(k, w, writes[0]), writes[1..])
  }

  /** A call that met an API fault landed some first part of its writes. */
  function Landed(writes: seq<Write>, landed: nat): seq<Write> {
    if landed < |writes| then writes[..landed] else writes
  }

  // ---------------------------------------------------------------- ensure

  function EnsureWrites(plan: Plan): seq<Write> {
    (if plan.replaced.Some? then [DropConfig(plan.replaced.value), DropSecret(plan.replaced.value)] else [])
    + (if plan.secret then [KeepSecret(plan.name)]
       else if plan.existing.Some? then [DropSecret(plan.name)] else [])
    + [if plan.existing.None? then CreateConfig(plan.name, plan.labels, plan.annotations, plan.spec)
       else UpdateConfig(plan.name, plan.existing.value.labels + plan.labels,
                         plan.existing.value.annotations + plan.annotations, plan.spec, plan.existing.value.uid)]
  }

  /** The plan, refused when Flux applies what it would write over or replace. */
  function EnsurePlan(k: Kagent, w: World, listing: seq<string>, model: string, ep: Endpoint): Outcome<Plan>
    requires Listing(w, listing)
  {
    var p := MakePlan(k, w, listing, model, ep);
    if p.Refused? then p
    else if p.value.existing.Some? && Applied(k, w, p.value.name).Some? then
      Refused(GitOpsOwned(Applied(k, w, p.value.name).value))
    else if p.value.replaced.Some? && Applied(k, w, p.value.replaced.value).Some? then
      Refused(GitOpsOwned(Applied(k, w, p.value.replaced.value).value))
    else p
  }

  function EnsureStep(k: Kagent, w: World, listing: seq<string>, model: string, ep: Endpoint, landed: nat): World
    requires Listing(w, listing)
  {
    var p := EnsurePlan(k, w, listing, model, ep);
    if p.Refused? then w else LandAll(k, w, Landed(EnsureWrites(p.value), landed))
  }

  /** The call that meets no API fault. */
  function EnsureAll(k: Kagent, w: World, listing: seq<string>, model: string, ep: Endpoint): World
    requires Listing(w, listing)
  {
    var p := EnsurePlan(k, w, listing, model, ep);
    if p.Refused? then w else LandAll(k, w, EnsureWrites(p.value))
  }

  // ---------------------------------------------------------------- remove

  /** references: a modelConfig or modelConfigRef field naming namespace/name anywhere in v. */
  predicate References(v: Json, namespace: string, name: string) {
    match v
    case Object(fields) =>
      exists i :: 0 <= i < |fields| &&
        (IsReference(fields[i].0, fields[i].1, namespace, name) || References(fields[i].1, namespace, name))
    case Array(items) => exists i :: 0 <= i < |items| && References(items[i], namespace, name)
    case Text(_) => false
    case Scalar => false
  }

  predicate IsReference(key: string, v: Json, namespace: string, name: string) {
    && (key == "modelConfig" || key == "modelConfigRef")
    && match v
       case Object(fields) => exists i :: 0 <= i < |fields| && fields[i] == ("name", Text(name))
       case Text(text) => text == name || text == namespace + "/" + name
       case Array(_) => false
       case Scalar => false
  }

  predicate Referenced(k: Kagent, w: World, name: string) {
    exists i :: 0 <= i < |w.referrers| && References(w.referrers[i], k.namespace, name)
  }

  /** kept: whether a removal in scope leaves the managed ModelConfig name in place. */
  predicate IsKept(k: Kagent, w: World, name: string, scope: Scope)
    requires name in w.configs
  {
    && !IsCreatedHere(k, w.configs[name])
    && (scope != Unclaimed || Creator(w.configs[name]) != "" || Referenced(k, w, name))
  }

  /** remove's decision: the ModelConfig to delete, none, or the refusal. */
  function RemoveDecision(k: Kagent, w: World, listing: seq<string>, b: Backend, model: string, scope: Scope): Outcome<Option<string>>
    requires Listing(w, listing)
  {
    var found := Find(k, w, listing, b, model);
    if found.None? then Done(None)
    else if Applied(k, w, found.value).Some? then Refused(GitOpsOwned(Applied(k, w, found.value).value))
    else if IsKept(k, w, found.value, scope) then Refused(NotOwned(Creator(w.configs[found.value])))
    else Done(found)
  }

  function RemoveWrites(name: string): seq<Write> { [DropConfig(name), DropSecret(name)] }

  function RemoveStep(k: Kagent, w: World, listing: seq<string>, b: Backend, model: string, scope: Scope, landed: nat): World
    requires Listing(w, listing)
  {
    var d := RemoveDecision(k, w, listing, b, model, scope);
    if d.Done? && d.value.Some? then LandAll(k, w, Landed(RemoveWrites(d.value.value), landed)) else w
  }

  // ------------------------------------------------ the calls as the source makes them

  /** match's two loops. */
  method MatchItems(k: Kagent, configs: map<string, Config>, items: seq<string>, b: Backend, model: string) returns (r: Option<string>)
    requires forall n :: n in items ==> n in configs
    ensures r == Match(k, configs, items, b, model)
  {
    for i := 0 to |items|
      invariant FirstAnnotated(configs, items, b, model) == FirstAnnotated(configs, items[i..], b, model)
    {
      assert items[i..][0] == items[i] && items[i..][1..] == items[i + 1..];
      if Annotated(configs[items[i]], b, model) { return Some(items[i]); }
    }
    var name := Names.ModelConfigName(k.prefix, model, k.fnv);
    for i := 0 to |items|
      invariant name in items[..i] ==> !BackendMatches(configs[name], b)
    {
      assert items[..i + 1] == items[..i] + [items[i]];
      if items[i] == name && BackendMatches(configs[items[i]], b) { return Some(items[i]); }
    }
    assert items[..|items|] == items;
    return None;
  }

  /** The API server's namespace. */
  class Cluster {
    var configs: map<string, Config>
    var secrets: map<string, Labels>
    var fleet: Fleet
    var referrers: seq<Json>
    var clock: nat

    ghost function Now(): World reads this { World(configs, secrets, fleet, referrers, clock) }

    method Delete(name: string)
      modifies this`configs
      ensures configs == old(configs) - {name}
    {
      configs := configs - {name};
    }

    method RemovePlaceholderSecret(k: Kagent, config: string)
      modifies this`secrets
      ensures Now() == Land(k, old(Now()), DropSecret(config))
    {
      var name := Names.PlaceholderSecretName(config);
      if name in secrets && Get(secrets[name], MANAGED_BY) == MANAGED_VALUE {
        var owner := ApplyingNow(fleet, secrets[name], Ident(k.namespace, name, "", "Secret"));
        if owner.None? { secrets := secrets - {name}; }
      }
    }

    method EnsurePlaceholderSecret(k: Kagent, config: string)
      modifies this`secrets
      ensures Now() == Land(k, old(Now()), KeepSecret(config))
    {
      var name := Names.PlaceholderSecretName(config);
      if name !in secrets { secrets := secrets[name := map[MANAGED_BY := MANAGED_VALUE]]; }
    }

    method RemoveObj(k: Kagent, name: string)
      modifies this`configs, this`secrets
      ensures Now() == LandAll(k, old(Now()), RemoveWrites(name))
    {
      ghost var w := Now();
      Delete(name);
      RemovePlaceholderSecret(k, name);
      RemoveInTurn(k, w, name);
    }

    method PutSecret(k: Kagent, p: Plan)
      modifies this`secrets
      ensures Now() == SecretPart(k, old(Now()), p)
    {
      if p.secret {
        EnsurePlaceholderSecret(k, p.name);
      } else if p.existing.Some? {
        RemovePlaceholderSecret(k, p.name);
      }
    }

    method PutConfig(k: Kagent, p: Plan)
      modifies this`configs, this`clock
      ensures Now() == ConfigPart(k, old(Now()), p)
      ensures p.name in configs
    {
      if p.existing.None? {
        configs := configs[p.name := Config(p.labels, p.annotations, p.spec, clock, clock)];
      } else {
        var e := p.existing.value;
        configs := configs[p.name := Config(e.labels + p.labels, e.annotations + p.annotations, p.spec, e.uid, clock)];
      }
      clock := clock + 1;
    }

    /** ensure without an API fault; listing is what List answers. */
    method Ensure(k: Kagent, listing: seq<string>, model: string, ep: Endpoint) returns (r: Outcome<Config>)
      requires Listing(Now(), listing)
      modifies this`configs, this`secrets, this`clock
      ensures Now() == EnsureAll(k, old(Now()), listing, model, ep)
      ensures r.Refused? <==> EnsurePlan(k, old(Now()), listing, model, ep).Refused?
      ensures r.Refused? ==> r.why == EnsurePlan(k, old(Now()), listing, model, ep).why
      ensures r.Done? ==> var p := EnsurePlan(k, old(Now()), listing, model, ep).value;
                          p.name in configs && r.value == configs[p.name]
    {
      ghost var w := Now();
      var plan := MakePlan(k, World(configs, secrets, fleet, referrers, clock), listing, model, ep);
      if plan.Refused? { return Refused(plan.why); }
      var p := plan.value;
      if p.existing.Some? {
        var owner := ApplyingNow(fleet, configs[p.name].labels, ConfigId(k, p.name));
        if owner.Some? { return Refused(GitOpsOwned(owner.value)); }
      }
      if p.replaced.Some? {
        var owner := ApplyingNow(fleet, configs[p.replaced.value].labels, ConfigId(k, p.replaced.value));
        if owner.Some? { return Refused(GitOpsOwned(owner.value)); }
      }
      if p.replaced.Some? { RemoveObj(k, p.replaced.value); }
      PutSecret(k, p);
      PutConfig(k, p);
      EnsureInParts(k, w, p);
      return Done(configs[p.name]);
    }

    /** remove without an API fault. */
    method Remove(k: Kagent, listing: seq<string>, b: Backend, model: string, scope: Scope) returns (r: Outcome<Option<string>>)
      requires Listing(Now(), listing)
      modifies this`configs, this`secrets
      ensures r == RemoveDecision(k, old(Now()), listing, b, model, scope)
      ensures Now() == RemoveStep(k, old(Now()), listing, b, model, scope, 2)
    {
      var found := MatchItems(k, configs, listing, b, model);
      if found.None? { return Done(None); }
      var obj := configs[found.value];
      var applier := ApplyingNow(fleet, obj.labels, ConfigId(k, found.value));
      if applier.Some? { return Refused(GitOpsOwned(applier.value)); }
      if !IsCreatedHere(k, obj) {
        if scope != Unclaimed || Creator(obj) != "" { return Refused(NotOwned(Creator(obj))); }
        var refs := CountReferrers(k, found.value);
        if refs > 0 { return Refused(NotOwned(Creator(obj))); }
      }
      RemoveObj(k, found.value);
      return Done(found);
    }

    /** referrers: how many kagent objects name the ModelConfig. */
    method CountReferrers(k: Kagent, name: string) returns (n: nat)
      ensures n == ReferrerCount(referrers, k.namespace, name)
      ensures n > 0 <==> Referenced(k, Now(), name)
    {
      n := 0;
      for i := 0 to |referrers|
        invariant n == ReferrerCount(referrers[..i], k.namespace, name)
      {
        assert referrers[..i + 1][..i] == referrers[..i];
        if References(referrers[i], k.namespace, name) { n := n + 1; }
      }
      assert referrers[..|referrers|] == referrers;
      CountedIsReferenced(referrers, k.namespace, name);
    }
  }

  function ReferrerCount(objects: seq<Json>, namespace: string, name: string): nat {
    if objects == [] then 0
    else ReferrerCount(objects[..|objects| - 1], namespace, name)
         + if References(objects[|objects| - 1], namespace, name) then 1 else 0
  }

  lemma {:induction false} CountedIsReferenced(objects: seq<Json>, namespace: string, name: string)
    ensures ReferrerCount(objects, namespace, name) > 0 <==> exists i :: 0 <= i < |objects| && References(objects[i], namespace, name)
  {
    if objects != [] {
      var last := |objects| - 1;
      CountedIsReferenced(objects[..last], namespace, name);
      assert forall i :: 0 <= i < last ==> objects[..last][i] == objects[i];
    }
  }

  lemma RemoveInTurn(k: Kagent, w: World, name: string)
    ensures LandAll(k, w, RemoveWrites(name)) == Land(k, Land(k, w, DropConfig(name)), DropSecret(name))
  {
    var mid := Land(k, w, DropConfig(name));
    assert RemoveWrites(name)[1..] == [DropSecret(name)];
    assert [DropSecret(name)][1..] == [];
    assert LandAll(k, mid, [DropSecret(name)]) == LandAll(k, Land(k, mid, DropSecret(name)), []);
  }

  lemma {:induction false} LandAllSplit(k: Kagent, w: World, a: seq<Write>, b: seq<Write>)
    ensures LandAll(k, w, a + b) == LandAll(k, LandAll(k, w, a), b)
    decreases |a|
  {
    if a == [] {
      assert a + b == b;
    } else {
      assert (a + b)[1..] == a[1..] + b;
      LandAllSplit(k, Land(k, w, a[0]), a[1..], b);
    }
  }

  /** The three parts of ensure's writes: the replaced one, the Secret, the ModelConfig. */
  function ReplacedPart(k: Kagent, w: World, plan: Plan): World {
    if plan.replaced.Some? then LandAll(k, w, RemoveWrites(plan.replaced.value)) else w
  }

  function SecretPart(k: Kagent, w: World, plan: Plan): World {
    if plan.secret then Land(k, w, KeepSecret(plan.name))
    else if plan.existing.Some? then Land(k, w, DropSecret(plan.name)) else w
  }

  function ConfigPart(k: Kagent, w: World, plan: Plan): World {
    Land(k, w, EnsureWrites(plan)[|EnsureWrites(plan)| - 1])
  }

  lemma EnsureInParts(k: Kagent, w: World, plan: Plan)
    ensures LandAll(k, w, EnsureWrites(plan)) == ConfigPart(k, SecretPart(k, ReplacedPart(k, w, plan), plan), plan)
  {
    var a := if plan.replaced.Some? then RemoveWrites(plan.replaced.value) else [];
    var b := if plan.secret then [KeepSecret(plan.name)] else if plan.existing.Some? then [DropSecret(plan.name)] else [];
    var c := [EnsureWrites(plan)[|EnsureWrites(plan)| - 1]];
    assert EnsureWrites(plan) == (a + b) + c;
    LandAllSplit(k, w, a + b, c);
    LandAllSplit(k, w, a, b);
    var m := LandAll(k, w, a);
    assert LandAll(k, m, b) == SecretPart(k, m, plan) by {
      if b != [] { assert b[1..] == []; assert LandAll(k, Land(k, m, b[0]), []) == Land(k, m, b[0]); }
    }
    assert c[1..] == [];
  }
}
