/** Whose ModelConfig a wirer may touch: over every run of Ensure and Remove calls
    by any number of instances, ended by API faults anywhere, with Flux and people
    creating, changing and deleting ModelConfigs in between, but for the ownership
    labels of those that stay. */
module WiringOwnership {
  import opened Basics
  import opened Flux
  import opened Wiring

  /** Every identity was given out before now. */
  ghost predicate Aged(w: World) {
    forall n :: n in w.configs ==> w.configs[n].uid < w.clock
  }

  /** The ModelConfig name of w is the same object in w'. */
  ghost predicate Stays(w: World, w': World, name: string) {
    name in w.configs && name in w'.configs && w.configs[name].uid == w'.configs[name].uid
  }

  ghost predicate SameOwnership(a: Config, b: Config) {
    Creator(a) == Creator(b) && (Managed(a) <==> Managed(b))
  }

  /** What k may write: managed, its own or nobody's, and applied by no Flux object. */
  ghost predicate MayWrite(k: Kagent, w: World, name: string)
    requires name in w.configs
  {
    && Managed(w.configs[name]) && Applied(k, w, name).None?
    && (Creator(w.configs[name]) == "" || Creator(w.configs[name]) == k.instance)
  }

  /** What k may delete: its own; nobody's only by an unwire_model of an unreferenced one. */
  ghost predicate MayDelete(k: Kagent, w: World, name: string, scope: Scope)
    requires name in w.configs
  {
    && MayWrite(k, w, name)
    && (Creator(w.configs[name]) == k.instance
        || (Creator(w.configs[name]) == "" && scope == Unclaimed && !Referenced(k, w, name)))
  }

  /** What one call of k may have done to the ModelConfigs of w, leaving those of w'. */
  ghost predicate ConfigsRespect(k: Kagent, w: World, w': World, scope: Scope) {
    && w.clock <= w'.clock
    && (forall n :: Stays(w, w', n) ==>
          SameOwnership(w.configs[n], w'.configs[n]) && (w.configs[n] == w'.configs[n] || MayWrite(k, w, n)))
    && (forall n :: n in w.configs && !Stays(w, w', n) ==> MayDelete(k, w, n, scope))
    && (forall n :: n in w'.configs && !Stays(w, w', n) ==>
          w'.configs[n].uid >= w.clock && Managed(w'.configs[n]) && Creator(w'.configs[n]) == k.instance)
  }

  /** A Secret of anyone else's, or one Flux applies, is not touched. */
  ghost predicate SecretsKept(k: Kagent, w: World, w': World) {
    && w.fleet == w'.fleet
    && forall s :: s in w.secrets && !Replaceable(k, w, s) ==> s in w'.secrets && w'.secrets[s] == w.secrets[s]
  }

  ghost predicate Replaceable(k: Kagent, w: World, s: string)
    requires s in w.secrets
  {
    && Get(w.secrets[s], MANAGED_BY) == MANAGED_VALUE
    && Applying(w.fleet, w.secrets[s], Ident(k.namespace, s, "", "Secret")).None?
  }

  ghost predicate Respects(k: Kagent, w: World, w': World, scope: Scope) {
    ConfigsRespect(k, w, w', scope) && SecretsKept(k, w, w')
  }

  // ------------------------------------------------------------ one call

  lemma {:induction false} WritesKeepSecrets(k: Kagent, w: World, writes: seq<Write>)
    ensures SecretsKept(k, w, LandAll(k, w, writes))
    decreases |writes|
  {
    if writes != [] {
      var m := Land(k, w, writes[0]);
      assert SecretsKept(k, w, m);
      WritesKeepSecrets(k, m, writes[1..]);
    }
  }

  /** The same ModelConfigs, or all but one the caller may delete. */
  lemma FewerConfigs(k: Kagent, w: World, w': World, gone: set<string>, scope: Scope)
    requires w'.configs == w.configs - gone && w'.clock == w.clock
    requires forall n :: n in gone ==> n in w.configs && MayDelete(k, w, n, scope)
    ensures ConfigsRespect(k, w, w', scope)
  {
    assert forall n :: n in w'.configs ==> n in w.configs && w'.configs[n] == w.configs[n];
  }

  lemma RemoveConfigs(k: Kagent, w: World, name: string, landed: nat)
    ensures var r := LandAll(k, w, Landed(RemoveWrites(name), landed));
            r.clock == w.clock && r.configs == if landed == 0 then w.configs else w.configs - {name}
  {
    RemoveInTurn(k, w, name);
    var writes := RemoveWrites(name);
    if landed == 1 {
      assert Landed(writes, 1) == [DropConfig(name)] && Landed(writes, 1)[1..] == [];
      assert LandAll(k, w, Landed(writes, 1)) == LandAll(k, Land(k, w, DropConfig(name)), []);
    }
  }

  lemma RemoveRespects(k: Kagent, w: World, listing: seq<string>, b: Backend, model: string, scope: Scope, landed: nat)
    requires Listing(w, listing)
    ensures Respects(k, w, RemoveStep(k, w, listing, b, model, scope, landed), scope)
  {
    var d := RemoveDecision(k, w, listing, b, model, scope);
    var w' := RemoveStep(k, w, listing, b, model, scope, landed);
    if d.Done? && d.value.Some? {
      var name := d.value.value;
      WritesKeepSecrets(k, w, Landed(RemoveWrites(name), landed));
      RemoveConfigs(k, w, name, landed);
      FewerConfigs(k, w, w', if landed == 0 then {} else {name}, scope);
    } else {
      FewerConfigs(k, w, w', {}, scope);
    }
  }

  /** What a plan may say: it writes over what k may write, and replaces what k may delete. */
  ghost predicate OwnPlan(k: Kagent, w: World, p: Plan) {
    && (p.existing.Some? <==> p.name in w.configs)
    && (p.existing.Some? ==> OwnUpdate(k, w, p))
    && (p.existing.None? ==> Get(p.labels, MANAGED_BY) == MANAGED_VALUE && Get(p.labels, INSTANCE) == k.instance)
    && (p.replaced.Some? ==> OwnReplacement(k, w, p))
  }

  ghost predicate OwnUpdate(k: Kagent, w: World, p: Plan)
    requires p.existing.Some? && p.name in w.configs
  {
    && p.existing.value == w.configs[p.name] && MayWrite(k, w, p.name)
    && Get(p.existing.value.labels + p.labels, MANAGED_BY) == MANAGED_VALUE
    && Get(p.existing.value.labels + p.labels, INSTANCE) == Creator(p.existing.value)
  }

  ghost predicate OwnReplacement(k: Kagent, w: World, p: Plan)
    requires p.replaced.Some?
  {
    && p.replaced.value in w.configs && p.replaced.value != p.name
    && MayDelete(k, w, p.replaced.value, CreatedHere) && Creator(w.configs[p.replaced.value]) == k.instance
  }

  lemma PlanIsOwn(k: Kagent, w: World, listing: seq<string>, model: string, ep: Endpoint)
    requires Listing(w, listing) && EnsurePlan(k, w, listing, model, ep).Done?
    ensures OwnPlan(k, w, EnsurePlan(k, w, listing, model, ep).value)
  {
    var p := EnsurePlan(k, w, listing, model, ep).value;
    var built := BuildLabels(k, ep);
    assert Get(built, MANAGED_BY) == MANAGED_VALUE && Get(built, INSTANCE) == k.instance;
    if p.existing.Some? {
      var merged := p.existing.value.labels + p.labels;
      assert Get(merged, MANAGED_BY) == MANAGED_VALUE;
      assert Get(merged, INSTANCE) == Creator(p.existing.value);
    }
  }

  function WithoutReplaced(w: World, p: Plan): map<string, Config> {
    if p.replaced.Some? then w.configs - {p.replaced.value} else w.configs
  }

  function Written(w: World, p: Plan): Config {
    if p.existing.None? then Config(p.labels, p.annotations, p.spec, w.clock, w.clock)
    else var e := p.existing.value;
         Config(e.labels + p.labels, e.annotations + p.annotations, p.spec, e.uid, w.clock)
  }

  lemma ReplacedConfigs(k: Kagent, w: World, p: Plan)
    ensures ReplacedPart(k, w, p).configs == WithoutReplaced(w, p) && ReplacedPart(k, w, p).clock == w.clock
  {
    if p.replaced.Some? { RemoveInTurn(k, w, p.replaced.value); }
  }

  lemma EnsureConfigsAll(k: Kagent, w: World, p: Plan)
    ensures var r := LandAll(k, w, EnsureWrites(p));
            r.configs == WithoutReplaced(w, p)[p.name := Written(w, p)] && r.clock == w.clock + 1
  {
    ReplacedConfigs(k, w, p);
    EnsureInParts(k, w, p);
  }

  lemma LandOne(k: Kagent, w: World, writes: seq<Write>)
    requires |writes| == 1
    ensures LandAll(k, w, writes) == Land(k, w, writes[0])
  {
    assert LandAll(k, Land(k, w, writes[0]), writes[1..]) == Land(k, w, writes[0]);
  }

  /** The ModelConfigs after any first part of ensure's writes: untouched, without
      the replaced one, or with the one written. */
  lemma EnsureConfigs(k: Kagent, w: World, p: Plan, landed: nat)
    ensures var r := LandAll(k, w, Landed(EnsureWrites(p), landed));
            || (r.configs == w.configs && r.clock == w.clock)
            || (r.configs == WithoutReplaced(w, p) && r.clock == w.clock)
            || (r.configs == WithoutReplaced(w, p)[p.name := Written(w, p)] && r.clock == w.clock + 1)
  {
    var writes := EnsureWrites(p);
    var a := if p.replaced.Some? then RemoveWrites(p.replaced.value) else [];
    if landed < |a| {
      assert writes[..landed] == Landed(RemoveWrites(p.replaced.value), landed);
      RemoveConfigs(k, w, p.replaced.value, landed);
    } else if landed < |writes| {
      ReplacedConfigs(k, w, p);
      var rest := writes[|a|..landed];
      assert writes[..landed] == a + rest;
      LandAllSplit(k, w, a, rest);
      if rest != [] {
        assert rest == [if p.secret then KeepSecret(p.name) else DropSecret(p.name)];
        LandOne(k, ReplacedPart(k, w, p), rest);
      }
    } else {
      EnsureConfigsAll(k, w, p);
    }
  }

  lemma PutRespects(k: Kagent, w: World, w': World, p: Plan)
    requires Aged(w) && OwnPlan(k, w, p)
    requires w'.configs == WithoutReplaced(w, p)[p.name := Written(w, p)] && w'.clock == w.clock + 1
    ensures ConfigsRespect(k, w, w', CreatedHere)
  {
    forall n | n in w'.configs && n != p.name ensures n in w.configs && w'.configs[n] == w.configs[n] {
      assert n in WithoutReplaced(w, p);
    }
    forall n | n in w.configs && n !in w'.configs ensures p.replaced == Some(n) {
    }
  }

  lemma EnsureRespects(k: Kagent, w: World, listing: seq<string>, model: string, ep: Endpoint, landed: nat)
    requires Aged(w) && Listing(w, listing)
    ensures Respects(k, w, EnsureStep(k, w, listing, model, ep, landed), CreatedHere)
  {
    var d := EnsurePlan(k, w, listing, model, ep);
    var w' := EnsureStep(k, w, listing, model, ep, landed);
    if d.Done? {
      PlanIsOwn(k, w, listing, model, ep);
      LandedRespects(k, w, d.value, landed);
    } else {
      FewerConfigs(k, w, w', {}, CreatedHere);
    }
  }

  lemma LandedRespects(k: Kagent, w: World, p: Plan, landed: nat)
    requires Aged(w) && OwnPlan(k, w, p)
    ensures Respects(k, w, LandAll(k, w, Landed(EnsureWrites(p), landed)), CreatedHere)
  {
    var w' := LandAll(k, w, Landed(EnsureWrites(p), landed));
    WritesKeepSecrets(k, w, Landed(EnsureWrites(p), landed));
    EnsureConfigs(k, w, p, landed);
    if w'.configs == w.configs && w'.clock == w.clock {
      FewerConfigs(k, w, w', {}, CreatedHere);
    } else if w'.configs == WithoutReplaced(w, p) && w'.clock == w.clock {
      FewerConfigs(k, w, w', if p.replaced.Some? then {p.replaced.value} else {}, CreatedHere);
    } else {
      PutRespects(k, w, w', p);
    }
  }

  // ------------------------------------------------------------ every run

  datatype Action =
    | EnsureCall(k: Kagent, listing: seq<string>, model: string, ep: Endpoint, landed: nat)
    | RemoveCall(k: Kagent, listing: seq<string>, b: Backend, name: string, scope: Scope, landed: nat)
    | Outside(after: World)

  /** Flux and people: ModelConfigs come, under identities of their own, change and go; one
      that stays keeps its ownership labels. */
  ghost predicate OutsideKeeps(w: World, w': World) {
    && w.clock <= w'.clock && Aged(w')
    && (forall n :: Stays(w, w', n) ==> SameOwnership(w.configs[n], w'.configs[n]))
    && (forall n :: n in w'.configs && !Stays(w, w', n) ==> w'.configs[n].uid >= w.clock)
  }

  ghost predicate Enabled(w: World, a: Action) {
    match a
    case EnsureCall(_, listing, _, _, _) => Listing(w, listing)
    case RemoveCall(_, listing, _, _, _, _) => Listing(w, listing)
    case Outside(after) => OutsideKeeps(w, after)
  }

  ghost function Next(w: World, a: Action): World
    requires Enabled(w, a)
  {
    match a
    case EnsureCall(k, listing, model, ep, landed) => EnsureStep(k, w, listing, model, ep, landed)
    case RemoveCall(k, listing, b, model, scope, landed) => RemoveStep(k, w, listing, b, model, scope, landed)
    case Outside(after) => after
  }

  ghost predicate StepRespects(w: World, a: Action, w': World) {
    match a
    case EnsureCall(k, _, _, _, _) => Respects(k, w, w', CreatedHere)
    case RemoveCall(k, _, _, _, scope, _) => Respects(k, w, w', scope)
    case Outside(_) => OutsideKeeps(w, w')
  }

  /** A run: the states before and after each action. */
  ghost predicate IsRun(states: seq<World>, actions: seq<Action>) {
    && |states| == |actions| + 1 && Aged(states[0])
    && forall i :: 0 <= i < |actions| ==> Steps(states, actions, i)
  }

  ghost predicate Steps(states: seq<World>, actions: seq<Action>, i: nat)
    requires i < |actions| < |states|
  {
    Enabled(states[i], actions[i]) && states[i + 1] == Next(states[i], actions[i])
  }

  /** A run as the ownership rules see it. */
  ghost predicate IsRespectful(states: seq<World>, actions: seq<Action>) {
    && |states| == |actions| + 1
    && (forall i :: 0 <= i < |actions| ==> StepRespects(states[i], actions[i], states[i + 1]))
    && (forall i :: 0 <= i < |states| ==> Aged(states[i]))
  }

  lemma StepIsRespectful(w: World, a: Action)
    requires Aged(w) && Enabled(w, a)
    ensures StepRespects(w, a, Next(w, a)) && Aged(Next(w, a))
  {
    match a
    case EnsureCall(k, listing, model, ep, landed) =>
      EnsureRespects(k, w, listing, model, ep, landed);
      EnsureAges(k, w, listing, model, ep, landed);
    case RemoveCall(k, listing, b, model, scope, landed) =>
      RemoveRespects(k, w, listing, b, model, scope, landed);
      RemoveAges(k, w, listing, b, model, scope, landed);
    case Outside(after) =>
  }

  lemma EnsureAges(k: Kagent, w: World, listing: seq<string>, model: string, ep: Endpoint, landed: nat)
    requires Aged(w) && Listing(w, listing)
    ensures Aged(EnsureStep(k, w, listing, model, ep, landed))
  {
    var d := EnsurePlan(k, w, listing, model, ep);
    if d.Done? {
      PlanIsOwn(k, w, listing, model, ep);
      EnsureConfigs(k, w, d.value, landed);
    }
  }

  lemma RemoveAges(k: Kagent, w: World, listing: seq<string>, b: Backend, model: string, scope: Scope, landed: nat)
    requires Aged(w) && Listing(w, listing)
    ensures Aged(RemoveStep(k, w, listing, b, model, scope, landed))
  {
    var d := RemoveDecision(k, w, listing, b, model, scope);
    if d.Done? && d.value.Some? { RemoveConfigs(k, w, d.value.value, landed); }
  }

  lemma RunIsRespectful(states: seq<World>, actions: seq<Action>)
    requires IsRun(states, actions)
    ensures IsRespectful(states, actions)
  {
    for i := 0 to |actions|
      invariant forall j :: 0 <= j < i ==> StepRespects(states[j], actions[j], states[j + 1])
      invariant forall j :: 0 <= j <= i ==> Aged(states[j])
    {
      assert Steps(states, actions, i);
      StepIsRespectful(states[i], actions[i]);
    }
  }

  lemma {:induction false} ClockGrows(states: seq<World>, actions: seq<Action>, i: nat, j: nat)
    requires IsRespectful(states, actions) && i <= j <= |actions|
    ensures states[i].clock <= states[j].clock
  {
    if i < j {
      assert StepRespects(states[j - 1], actions[j - 1], states[j]);
      ClockGrows(states, actions, i, j - 1);
    }
  }

  /** One step neither relabels an object nor brings one back. */
  lemma StepStays(w: World, a: Action, w': World, name: string, uid: nat)
    requires StepRespects(w, a, w') && uid < w.clock
    requires name in w'.configs && w'.configs[name].uid == uid
    ensures name in w.configs && w.configs[name].uid == uid && SameOwnership(w.configs[name], w'.configs[name])
  {
    assert Stays(w, w', name) || !Stays(w, w', name);
  }

  lemma {:induction false} StaysThroughout(states: seq<World>, actions: seq<Action>, i: nat, j: nat, name: string)
    requires IsRespectful(states, actions) && i <= j <= |actions| && Stays(states[i], states[j], name)
    ensures SameOwnership(states[i].configs[name], states[j].configs[name])
    ensures forall m :: i <= m <= j ==> Stays(states[i], states[m], name)
  {
    if i < j {
      assert Aged(states[i]);
      ClockGrows(states, actions, i, j - 1);
      StepStays(states[j - 1], actions[j - 1], states[j], name, states[i].configs[name].uid);
      StaysThroughout(states, actions, i, j - 1, name);
    }
  }

  /** In every run an object found again later was there all along, with the
      instance label and the managed-by label it had. */
  lemma OwnershipIsForLife(states: seq<World>, actions: seq<Action>, i: nat, j: nat, name: string)
    requires IsRun(states, actions) && i <= j <= |actions| && Stays(states[i], states[j], name)
    ensures SameOwnership(states[i].configs[name], states[j].configs[name])
    ensures forall m :: i <= m <= j ==> Stays(states[i], states[m], name)
  {
    RunIsRespectful(states, actions);
    StaysThroughout(states, actions, i, j, name);
  }

  ghost predicate Deletes(w: World, a: Action, name: string)
    requires name in w.configs
  {
    match a
    case EnsureCall(k, _, _, _, _) => MayDelete(k, w, name, CreatedHere)
    case RemoveCall(k, _, _, _, scope, _) => MayDelete(k, w, name, scope)
    case Outside(after) => !Stays(w, after, name)
  }

  /** In every run an object that disappeared was taken by one call: of the instance
      it carried the label of, or by an unwire of an unreferenced one nobody claims, or by
      someone other than the instances. */
  lemma WhoDeleted(states: seq<World>, actions: seq<Action>, i: nat, j: nat, name: string) returns (m: nat)
    requires IsRun(states, actions) && i <= j <= |actions|
    requires name in states[i].configs && !Stays(states[i], states[j], name)
    ensures i <= m < j && Stays(states[i], states[m], name)
    ensures SameOwnership(states[i].configs[name], states[m].configs[name])
    ensures Deletes(states[m], actions[m], name)
  {
    m := i;
    while Stays(states[i], states[m + 1], name)
      invariant i <= m < j && Stays(states[i], states[m], name)
      decreases j - m
    {
      m := m + 1;
    }
    RunIsRespectful(states, actions);
    StaysThroughout(states, actions, i, m, name);
    assert StepRespects(states[m], actions[m], states[m + 1]) && Steps(states, actions, m);
    assert !Stays(states[m], states[m + 1], name);
  }

  /** In every run no call touches a ModelConfig that is unmanaged, another
      instance's, or applied by Flux. */
  lemma ForeignUntouched(states: seq<World>, actions: seq<Action>, i: nat, name: string)
    requires IsRun(states, actions) && i < |actions| && !actions[i].Outside?
    requires name in states[i].configs && !MayWrite(actions[i].k, states[i], name)
    ensures name in states[i + 1].configs && states[i + 1].configs[name] == states[i].configs[name]
  {
    RunIsRespectful(states, actions);
    assert StepRespects(states[i], actions[i], states[i + 1]);
    assert Stays(states[i], states[i + 1], name);
  }

  /** Nor a Secret that is unmanaged or applied by Flux. */
  lemma ForeignSecretsUntouched(states: seq<World>, actions: seq<Action>, i: nat, name: string)
    requires IsRun(states, actions) && i < |actions| && !actions[i].Outside?
    requires name in states[i].secrets && !Replaceable(actions[i].k, states[i], name)
    ensures name in states[i + 1].secrets && states[i + 1].secrets[name] == states[i].secrets[name]
  {
    RunIsRespectful(states, actions);
    assert StepRespects(states[i], actions[i], states[i + 1]);
  }

  // ------------------------------------------------------------ references

  /** The value at a path of field and item numbers, if the path leads anywhere. */
  function At(v: Json, path: seq<nat>): Option<Json>
    decreases |path|
  {
    if path == [] then Some(v)
    else match v
      case Object(fields) => if path[0] < |fields| then At(fields[path[0]].1, path[1..]) else None
      case Array(items) => if path[0] < |items| then At(items[path[0]], path[1..]) else None
      case Text(_) => None
      case Scalar => None
  }

  /** The value has, at a path, a field modelConfig or modelConfigRef that says the name, bare or
      behind the namespace, or is an object whose name it is. */
  ghost predicate ReferenceAt(v: Json, path: seq<nat>, i: nat, namespace: string, name: string) {
    var at := At(v, path);
    && at.Some? && at.value.Object? && i < |at.value.fields|
    && var (key, value) := at.value.fields[i];
       && key in {"modelConfig", "modelConfigRef"}
       && (value == Text(name) || value == Text(namespace + "/" + name)
           || (value.Object? && ("name", Text(name)) in value.fields))
  }

  lemma IsReferenceSays(key: string, value: Json, namespace: string, name: string)
    ensures IsReference(key, value, namespace, name)
       <==> key in {"modelConfig", "modelConfigRef"}
            && (value == Text(name) || value == Text(namespace + "/" + name)
                || (value.Object? && ("name", Text(name)) in value.fields))
  {
  }

  /** A reference is found exactly when some nested object has a naming field. */
  lemma {:induction false} ReferencesAnywhere(v: Json, namespace: string, name: string)
    ensures References(v, namespace, name) <==> exists path, i :: ReferenceAt(v, path, i, namespace, name)
  {
    if References(v, namespace, name) { var path, i := PathTo(v, namespace, name); }
    forall path, i | ReferenceAt(v, path, i, namespace, name) ensures References(v, namespace, name) {
      PathReferences(v, path, i, namespace, name);
    }
  }

  lemma {:induction false} PathTo(v: Json, namespace: string, name: string) returns (path: seq<nat>, i: nat)
    requires References(v, namespace, name)
    ensures ReferenceAt(v, path, i, namespace, name)
  {
    match v
    case Object(fields) =>
      var j :| 0 <= j < |fields| &&
        (IsReference(fields[j].0, fields[j].1, namespace, name) || References(fields[j].1, namespace, name));
      IsReferenceSays(fields[j].0, fields[j].1, namespace, name);
      if IsReference(fields[j].0, fields[j].1, namespace, name) {
        path, i := [], j;
      } else {
        var tail, k := PathTo(fields[j].1, namespace, name);
        path, i := [j] + tail, k;
        assert path[1..] == tail;
      }
    case Array(items) =>
      var j :| 0 <= j < |items| && References(items[j], namespace, name);
      var tail, k := PathTo(items[j], namespace, name);
      path, i := [j] + tail, k;
      assert path[1..] == tail;
  }

  lemma {:induction false} PathReferences(v: Json, path: seq<nat>, i: nat, namespace: string, name: string)
    requires ReferenceAt(v, path, i, namespace, name)
    ensures References(v, namespace, name)
    decreases |path|
  {
    if path == [] {
      IsReferenceSays(v.fields[i].0, v.fields[i].1, namespace, name);
    } else {
      match v
      case Object(fields) => PathReferences(fields[path[0]].1, path[1..], i, namespace, name);
      case Array(items) => PathReferences(items[path[0]], path[1..], i, namespace, name);
    }
  }
}
