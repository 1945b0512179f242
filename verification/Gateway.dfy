/** The served models on the LLM endpoint (internal/backend/kserve/gatewaymodel.go): a pass
    that writes the driver's AgentgatewayModels, and the fingerprint that skips one. */
module Gateway {
  import opened Text

  datatype Endpoint = Endpoint(namespace: string, endpoint: string, parentRefs: seq<string>)

  datatype Spec =
    | Virtual(parentRefs: seq<string>, target: string)
    | Concrete(parentRefs: seq<string>, model: string, name: string, namespace: string, formats: seq<string>)

  /** public is the preset label, hash the annotation that digests spec; model and serving
      are the annotations a reader sees. */
  datatype Object = Object(name: string, public: string, model: string, serving: string, hash: string, spec: Spec)

  type Store = map<string, Object>

  datatype Pair = Pair(virtual: Object, concrete: Object)

  type Desired = map<string, Pair>

  function Workload(public: string): string { public + "-workload" }

  /** A served object; public is its preset when it was created from one, else "". */
  datatype Served = Served(public: string, name: string, namespace: string, model: string,
                           deleting: bool, ready: bool, read: bool, formats: seq<string>)

  function ObjectOf(sv: Served, name: string, spec: Spec, hash: Spec -> string): Object {
    Object(name, sv.public, sv.model, sv.namespace + "/" + sv.name, hash(spec), spec)
  }

  /** composeGatewayModels. */
  function Compose(sv: Served, ep: Endpoint, hash: Spec -> string): Pair {
    Pair(ObjectOf(sv, sv.public, Virtual(ep.parentRefs, Workload(sv.public)), hash),
         ObjectOf(sv, Workload(sv.public), Concrete(ep.parentRefs, sv.model, sv.name, sv.namespace, sv.formats), hash))
  }

  predicate IsPresent(sv: Served) { !sv.deleting && sv.public != "" }

  predicate IsDesired(sv: Served) { IsPresent(sv) && sv.ready && sv.read && sv.formats != [] }

  /** What a sync would write from. */
  datatype Input = Input(ep: Endpoint, desired: Desired, present: set<string>)

  /** The pairs are composed from served objects of their public names. */
  ghost predicate Composed(i: Input, hash: Spec -> string) {
    forall p :: p in i.desired ==> IsPairOf(i, hash, p)
  }

  ghost predicate IsPairOf(i: Input, hash: Spec -> string, p: string)
    requires p in i.desired
  {
    exists sv: Served :: sv.public == p && i.desired[p] == Compose(sv, i.ep, hash)
  }

  ghost predicate IsAnyPresent(list: seq<Served>, p: string) { exists sv :: sv in list && IsPresent(sv) && sv.public == p }
  ghost predicate IsAnyDesired(list: seq<Served>, p: string) { exists sv :: sv in list && IsDesired(sv) && sv.public == p }

  /** The public names with a serving object, and the pairs of those that answer. */
  ghost predicate InputOf(list: seq<Served>, i: Input, hash: Spec -> string) {
    && (forall n :: n in i.present <==> IsAnyPresent(list, n))
    && (forall n :: n in i.desired <==> IsAnyDesired(list, n))
    && (forall p :: p in i.desired ==> IsOfLast(list, i, hash, p))
    && Composed(i, hash)
  }

  /** Of several served objects of one public name that answer, the last is composed. */
  ghost predicate IsOfLast(list: seq<Served>, i: Input, hash: Spec -> string, p: string)
    requires p in i.desired
  {
    exists k :: 0 <= k < |list| && IsLast(list, k, p) && i.desired[p] == Compose(list[k], i.ep, hash)
  }

  predicate IsLast(list: seq<Served>, k: nat, p: string)
    requires k < |list|
  {
    IsDesired(list[k]) && list[k].public == p && forall j :: k < j < |list| ==> !(IsDesired(list[j]) && list[j].public == p)
  }

  method Inputs(list: seq<Served>, ep: Endpoint, hash: Spec -> string) returns (i: Input)
    ensures i.ep == ep && InputOf(list, i, hash)
  {
    i := Input(ep, map[], {});
    for k := 0 to |list|
      invariant i.ep == ep && InputOf(list[..k], i, hash)
    {
      var sv := list[k];
      ghost var before := i;
      if IsPresent(sv) {
        i := i.(present := i.present + {sv.public});
        if IsDesired(sv) { i := i.(desired := i.desired[sv.public := Compose(sv, ep, hash)]); }
      }
      InputOneMore(list, k, before, i, hash);
    }
    assert list[..|list|] == list;
  }

  lemma InputOneMore(list: seq<Served>, k: nat, before: Input, i: Input, hash: Spec -> string)
    requires k < |list| && InputOf(list[..k], before, hash) && i.ep == before.ep
    requires i.present == if IsPresent(list[k]) then before.present + {list[k].public} else before.present
    requires i.desired == if IsDesired(list[k]) then before.desired[list[k].public := Compose(list[k], i.ep, hash)] else before.desired
    ensures InputOf(list[..k + 1], i, hash)
  {
    forall p | p in i.desired ensures IsOfLast(list[..k + 1], i, hash, p) {
      LastOneMore(list, k, before, i, hash, p);
    }
    LastIsPair(list[..k + 1], i, hash);
    forall p ensures p in i.present <==> IsAnyPresent(list[..k + 1], p) { AnyOneMore(list, k, p); }
    forall p ensures p in i.desired <==> IsAnyDesired(list[..k + 1], p) { AnyOneMore(list, k, p); }
  }

  lemma AnyOneMore(list: seq<Served>, k: nat, p: string)
    requires k < |list|
    ensures IsAnyPresent(list[..k + 1], p) <==> IsAnyPresent(list[..k], p) || (IsPresent(list[k]) && list[k].public == p)
    ensures IsAnyDesired(list[..k + 1], p) <==> IsAnyDesired(list[..k], p) || (IsDesired(list[k]) && list[k].public == p)
  {
    assert list[..k + 1] == list[..k] + [list[k]];
    assert list[k] in list[..k + 1];
  }

  lemma LastIsPair(list: seq<Served>, i: Input, hash: Spec -> string)
    requires forall p :: p in i.desired ==> IsOfLast(list, i, hash, p)
    ensures Composed(i, hash)
  {
    forall p | p in i.desired ensures IsPairOf(i, hash, p) {
      var k :| 0 <= k < |list| && IsLast(list, k, p) && i.desired[p] == Compose(list[k], i.ep, hash);
      assert list[k].public == p;
    }
  }

  /** Which public names are present and desired, read off the served objects; and what is composed
      for one that is: the public model leads to the concrete one, which says the object's model,
      service and formats. */
  lemma InputIs(list: seq<Served>, i: Input, hash: Spec -> string, p: string)
    requires InputOf(list, i, hash)
    ensures p in i.present <==> exists sv :: sv in list && sv.public == p && p != "" && !sv.deleting
    ensures p in i.desired <==>
              exists sv :: sv in list && sv.public == p && p != "" && !sv.deleting && sv.ready && sv.read && |sv.formats| > 0
    ensures p in i.desired ==>
              exists sv :: sv in list && sv.public == p && !sv.deleting && sv.ready && sv.read && |sv.formats| > 0 && IsComposedOf(i.desired[p], sv, i.ep, hash)
  {
    if p in i.desired {
      var k :| 0 <= k < |list| && IsLast(list, k, p) && i.desired[p] == Compose(list[k], i.ep, hash);
      assert list[k] in list && IsComposedOf(i.desired[p], list[k], i.ep, hash);
    }
    assert p in i.present <==> IsAnyPresent(list, p);
    assert p in i.desired <==> IsAnyDesired(list, p);
  }

  ghost predicate IsComposedOf(pair: Pair, sv: Served, ep: Endpoint, hash: Spec -> string) {
    && pair.virtual.name == sv.public && pair.concrete.name == sv.public + "-workload"
    && pair.virtual.spec == Virtual(ep.parentRefs, pair.concrete.name)
    && pair.concrete.spec == Concrete(ep.parentRefs, sv.model, sv.name, sv.namespace, sv.formats)
    && (forall o :: o in {pair.virtual, pair.concrete} ==>
          o.public == sv.public && o.model == sv.model && o.serving == sv.namespace + "/" + sv.name && o.hash == hash(o.spec))
  }

  lemma LastOneMore(list: seq<Served>, k: nat, before: Input, i: Input, hash: Spec -> string, p: string)
    requires k < |list| && p in i.desired && i.ep == before.ep
    requires i.desired == if IsDesired(list[k]) then before.desired[list[k].public := Compose(list[k], i.ep, hash)] else before.desired
    requires forall q :: q in before.desired ==> IsOfLast(list[..k], before, hash, q)
    ensures IsOfLast(list[..k + 1], i, hash, p)
  {
    var longer := list[..k + 1];
    assert longer == list[..k] + [list[k]];
    if IsDesired(list[k]) && list[k].public == p {
      assert IsLast(longer, k, p);
    } else {
      var j :| 0 <= j < k && IsLast(list[..k], j, p) && before.desired[p] == Compose(list[..k][j], i.ep, hash);
      assert IsLast(longer, j, p);
    }
  }

  // ------------------------------------------------------------ one pass

  predicate Differs(store: Store, obj: Object) { obj.name !in store || store[obj.name].hash != obj.hash }

  predicate Names(pair: Pair, name: string) { name == pair.virtual.name || name == pair.concrete.name }

  predicate NamedBy(desired: Desired, publics: set<string>, name: string)
    requires publics <= desired.Keys
  {
    exists p :: p in publics && Names(desired[p], name)
  }

  predicate IsWanted(desired: Desired, name: string) { NamedBy(desired, desired.Keys, name) }

  /** No two of the desired objects are of one name. */
  predicate Apart(desired: Desired) {
    && (forall p :: p in desired ==> desired[p].virtual.name != desired[p].concrete.name)
    && forall p, q :: p in desired && q in desired && p != q ==>
         !Names(desired[q], desired[p].virtual.name) && !Names(desired[q], desired[p].concrete.name)
  }

  /** An object nobody wants stays while its public name restarts. */
  predicate Stays(o: Object, desired: Desired, present: set<string>) { o.public in present && o.public !in desired }

  /** The pass has nothing to write. */
  ghost predicate Quiet(store: Store, desired: Desired, present: set<string>) {
    && (forall p :: p in desired ==> Unchanged(store, desired[p]))
    && (forall n :: n in store && !IsWanted(desired, n) ==> Stays(store[n], desired, present))
  }

  predicate Unchanged(store: Store, pair: Pair) { !Differs(store, pair.virtual) && !Differs(store, pair.concrete) }

  /** What a write leaves under a name: what was there when its spec is the same. */
  function Settled(store: Store, obj: Object): Object { if Differs(store, obj) then obj else store[obj.name] }

  predicate IsSettled(store: Store, obj: Object, after: Store) { obj.name in after && after[obj.name] == Settled(store, obj) }

  /** The API refuses the write the object needs. */
  predicate Blocked(store: Store, obj: Object, refused: set<string>) { Differs(store, obj) && obj.name in refused }

  /** The pair is not written in full: its concrete model is not even tried after a refused public one. */
  predicate Fails(store: Store, pair: Pair, refused: set<string>) {
    Blocked(store, pair.virtual, refused) || Blocked(store, pair.concrete, refused)
  }

  /** The pass came to write under n, or found it need not. */
  predicate Marked(store: Store, desired: Desired, refused: set<string>, n: string) {
    MarkedBy(store, desired, desired.Keys, refused, n)
  }

  predicate MarkedBy(store: Store, desired: Desired, done: set<string>, refused: set<string>, n: string)
    requires done <= desired.Keys
  {
    exists p :: p in done && Marks(store, desired[p], refused, n)
  }

  predicate Marks(store: Store, pair: Pair, refused: set<string>, n: string) {
    n == pair.virtual.name || (n == pair.concrete.name && !Blocked(store, pair.virtual, refused))
  }

  predicate IsWritten(store: Store, obj: Object, refused: set<string>, after: Store) {
    if Blocked(store, obj, refused) then Agree(store, after, obj.name) else IsSettled(store, obj, after)
  }

  /** What becomes of a name the pass did not come to write under. */
  predicate IsPruned(store: Store, desired: Desired, present: set<string>, refused: set<string>, n: string, after: Store) {
    && (n in after <==> n in store && (n in refused || Stays(store[n], desired, present)))
    && (n in after ==> after[n] == store[n])
  }

  /** The pass's outcome. */
  ghost predicate Settles(store: Store, desired: Desired, present: set<string>, refused: set<string>, after: Store) {
    && (forall p :: p in desired ==>
          && IsWritten(store, desired[p].virtual, refused, after)
          && (!Blocked(store, desired[p].virtual, refused) ==> IsWritten(store, desired[p].concrete, refused, after)))
    && (forall n :: !Marked(store, desired, refused, n) ==> IsPruned(store, desired, present, refused, n, after))
  }

  class Gateway {
    const hash: Spec -> string
    var stores: map<string, Store>      // the driver's objects, by namespace
    var fingerprint: string
    var onEndpoint: set<string>
    var failed: set<string>
    ghost var last: Input               // what fingerprint digests

    function StoreOf(namespace: string): Store
      reads this
    {
      if namespace in stores then stores[namespace] else map[]
    }

    ghost predicate Valid()
      reads this
    {
      IsHash(hash) && (fingerprint != "" ==> Readable(last) && Composed(last, hash) && IsFingerprint(last, fingerprint))
    }

    /** A pass on the inputs of the fingerprint would write nothing. */
    ghost predicate Kept()
      reads this
    {
      fingerprint != "" ==> Quiet(StoreOf(last.ep.namespace), last.desired, last.present)
    }

    constructor (hash: Spec -> string, stores: map<string, Store>)
      requires IsHash(hash)
      ensures Valid() && Kept() && this.stores == stores && this.hash == hash && fingerprint == ""
    {
      this.hash, this.stores, fingerprint, onEndpoint, failed := hash, stores, "", {}, {};
      last := Input(Endpoint("", "", []), map[], {});
    }

    /** Create or update one object, unless the API refuses it. */
    method Write(namespace: string, have: Store, obj: Object, refused: set<string>) returns (ok: bool, wrote: bool)
      modifies this`stores
      ensures wrote <==> Differs(have, obj) && obj.name !in refused
      ensures ok <==> !Differs(have, obj) || obj.name !in refused
      ensures stores == if wrote then old(stores)[namespace := old(StoreOf(namespace))[obj.name := obj]] else old(stores)
    {
      if !Differs(have, obj) { return true, false; }
      if obj.name in refused { return false, false; }
      stores := stores[namespace := StoreOf(namespace)[obj.name := obj]];
      return true, true;
    }

    /** applyGatewayModels; refused holds the names whose write or deletion the API refuses,
        listed is false when the objects cannot be listed. */
    method Apply(ep: Endpoint, desired: Desired, present: set<string>, listed: bool, refused: set<string>)
      returns (names: set<string>, failures: set<string>, writes: nat)
      modifies this`stores
      ensures forall ns :: ns != ep.namespace ==> StoreOf(ns) == old(StoreOf(ns))
      ensures IsOutcome(old(StoreOf(ep.namespace)), Input(ep, desired, present), listed, refused, failures, StoreOf(ep.namespace))
      ensures !listed ==> writes == 0
      ensures listed && refused == {} ==> (writes == 0 <==> Quiet(old(StoreOf(ep.namespace)), desired, present))
      ensures listed ==>
                forall n :: n in names <==> (n in desired && n !in failures)
                                            || HasStaying(old(StoreOf(ep.namespace)), {}, desired, present, refused, n)
      ensures Quiet(old(StoreOf(ep.namespace)), desired, present) ==>
                StoreOf(ep.namespace) == old(StoreOf(ep.namespace)) && writes == 0
    {
      if !listed { return {}, present, 0; }
      var have := StoreOf(ep.namespace);
      var wanted;
      names, failures, writes, wanted := WriteAll(ep.namespace, have, desired, refused);
      ghost var written := StoreOf(ep.namespace);
      var staying, deletions := Prune(ep.namespace, have, desired, wanted, present, refused);
      names, writes := names + staying, writes + deletions;
      QuietIsNothingToDo(have, desired, present, refused);
      assert forall p :: p in failures <==> p in desired && Fails(have, desired[p], refused);
      if Apart(desired) { PassSettles(have, desired, present, refused, written, StoreOf(ep.namespace)); }
      if Quiet(have, desired, present) { SameStore(have, StoreOf(ep.namespace)); }
    }

    /** The second loop: an object not wanted goes, unless its public name restarts. */
    method Prune(namespace: string, have: Store, desired: Desired, wanted: set<string>, present: set<string>, refused: set<string>)
      returns (staying: set<string>, deletions: nat)
      requires forall n :: n in wanted <==> Marked(have, desired, refused, n)
      modifies this`stores
      ensures forall ns :: ns != namespace ==> StoreOf(ns) == old(StoreOf(ns))
      ensures forall n :: if Goes(have, {}, desired, present, refused, n) then n !in StoreOf(namespace)
                          else Agree(old(StoreOf(namespace)), StoreOf(namespace), n)
      ensures deletions == 0 <==> forall n :: !Goes(have, {}, desired, present, refused, n)
      ensures forall p :: p in staying <==> HasStaying(have, {}, desired, present, refused, p)
    {
      staying, deletions := {}, 0;
      var todo := have.Keys;
      while todo != {}
        invariant todo <= have.Keys
        invariant forall ns :: ns != namespace ==> StoreOf(ns) == old(StoreOf(ns))
        invariant forall n :: if Goes(have, todo, desired, present, refused, n) then n !in StoreOf(namespace)
                              else Agree(old(StoreOf(namespace)), StoreOf(namespace), n)
        invariant deletions == 0 <==> forall n :: !Goes(have, todo, desired, present, refused, n)
        invariant forall p :: p in staying <==> HasStaying(have, todo, desired, present, refused, p)
      {
        var name :| name in todo;
        var cur := have[name];
        assert forall n :: n != name ==> (Goes(have, todo, desired, present, refused, n) <==> Goes(have, todo - {name}, desired, present, refused, n));
        if name !in wanted {
          if Stays(cur, desired, present) {
            staying := staying + {cur.public};
          } else if name !in refused {
            stores := stores[namespace := StoreOf(namespace) - {name}];
            deletions := deletions + 1;
            assert Goes(have, todo - {name}, desired, present, refused, name);
          }
        }
        todo := todo - {name};
      }
    }

    /** A pair's public model, then its concrete one; a refused write ends it. */
    method WritePair(namespace: string, have: Store, pair: Pair, refused: set<string>)
      returns (ok: bool, writes: nat, wanted: set<string>)
      modifies this`stores
      ensures forall ns :: ns != namespace ==> StoreOf(ns) == old(StoreOf(ns))
      ensures StoreOf(namespace) == PutPair(have, old(StoreOf(namespace)), pair, refused)
      ensures ok <==> !Fails(have, pair, refused)
      ensures forall n :: n in wanted <==> Marks(have, pair, refused, n)
      ensures refused == {} ==> (writes == 0 <==> Unchanged(have, pair))
      ensures Unchanged(have, pair) ==> writes == 0 && stores == old(stores)
    {
      var wrote;
      writes, wanted := 0, {pair.virtual.name};
      ok, wrote := Write(namespace, have, pair.virtual, refused);
      if wrote { writes := writes + 1; }
      if ok {
        wanted := wanted + {pair.concrete.name};
        ok, wrote := Write(namespace, have, pair.concrete, refused);
        if wrote { writes := writes + 1; }
      }
    }

    /** The first loop of the pass. */
    method WriteAll(namespace: string, have: Store, desired: Desired, refused: set<string>)
      returns (names: set<string>, failures: set<string>, writes: nat, wanted: set<string>)
      requires have == StoreOf(namespace)
      modifies this`stores
      ensures forall ns :: ns != namespace ==> StoreOf(ns) == old(StoreOf(ns))
      ensures names == desired.Keys - failures && failures == FailuresAmong(have, desired, desired.Keys, refused)
      ensures forall n :: n in wanted <==> Marked(have, desired, refused, n)
      ensures Written(have, desired, desired.Keys, refused, StoreOf(namespace))
      ensures refused == {} ==> (writes == 0 <==> AllUnchanged(have, desired, desired.Keys))
      ensures AllUnchanged(have, desired, desired.Keys) ==> writes == 0
    {
      names, failures, writes, wanted := {}, {}, 0, {};
      var todo := desired.Keys;
      ghost var done: set<string> := {};
      while todo != {}
        invariant done <= desired.Keys && todo == desired.Keys - done
        invariant forall ns :: ns != namespace ==> StoreOf(ns) == old(StoreOf(ns))
        invariant Reached(have, desired, done, refused, names, failures, writes, wanted)
        invariant Written(have, desired, done, refused, StoreOf(namespace))
      {
        var p :| p in todo;
        OneMoreDone(have, desired, done, p, refused, StoreOf(namespace));
        var ok, wrote, marks := WritePair(namespace, have, desired[p], refused);
        ReachedOneMore(have, desired, done, p, refused, names, failures, writes, wanted, ok, wrote, marks);
        writes, wanted := writes + wrote, wanted + marks;
        if ok { names := names + {p}; } else { failures := failures + {p}; }
        todo, done := todo - {p}, done + {p};
      }
      assert done == desired.Keys;
    }

    /** syncGatewayModels; recent says the last pass is not too long ago to be skipped on. */
    method Sync(ep: Endpoint, list: seq<Served>, recent: bool, listed: bool, refused: set<string>)
      returns (skipped: bool, now: Input)
      requires Valid() && IsName(ep.namespace) && forall sv :: sv in list ==> IsName(sv.public)
      modifies this
      ensures Valid() && now.ep == ep && InputOf(list, now, hash)
      ensures skipped <==> recent && IsFingerprint(now, old(fingerprint))
      ensures skipped ==> stores == old(stores) && fingerprint == old(fingerprint) && last == old(last)
      ensures skipped ==> (Quiet(StoreOf(ep.namespace), now.desired, now.present) <==> old(Kept()))
      ensures !skipped ==> last == now && (fingerprint != "" <==> failed == {}) && (listed ==> FailuresOf(now, old(StoreOf(ep.namespace)), refused, failed))
      ensures !skipped && !listed ==> failed == now.present && StoreOf(ep.namespace) == old(StoreOf(ep.namespace))
      ensures !skipped && fingerprint != "" ==> (Kept() <==> LeavesNothing(old(StoreOf(ep.namespace)), now, listed, refused))
      ensures !skipped && listed && refused == {} && Apart(now.desired) ==>
                fingerprint != "" && Kept()
      ensures !skipped && listed && Apart(now.desired) ==>
                Settles(old(StoreOf(ep.namespace)), now.desired, now.present, refused, StoreOf(ep.namespace))
      ensures forall n :: n in refused ==> Agree(old(StoreOf(ep.namespace)), StoreOf(ep.namespace), n)
    {
      now := Inputs(list, ep, hash);
      InputIsReadable(list, now, hash);
      var names := SortedKeys(now.present);
      var f := Fingerprint(ep, now.desired, names);
      OneFingerprint(now, names, fingerprint);
      if f == fingerprint && recent {
        SkipIsAlike(StoreOf(ep.namespace), now, last, fingerprint, hash);
        return true, now;
      }
      ghost var store := StoreOf(ep.namespace);
      Pass(now, f, listed, refused);
      NothingFails(store, now, refused, failed);
      skipped := false;
    }

    /** A pass that is not skipped. */
    method Pass(now: Input, f: string, listed: bool, refused: set<string>)
      requires IsHash(hash) && Readable(now) && Composed(now, hash) && f != "" && IsFingerprint(now, f)
      modifies this
      ensures Valid() && last == now && (fingerprint != "" <==> failed == {})
      ensures IsOutcome(old(StoreOf(now.ep.namespace)), now, listed, refused, failed, StoreOf(now.ep.namespace))
      ensures fingerprint != "" ==> (Kept() <==> LeavesNothing(old(StoreOf(now.ep.namespace)), now, listed, refused))
    {
      ghost var store := StoreOf(now.ep.namespace);
      var writes;
      onEndpoint, failed, writes := Apply(now.ep, now.desired, now.present, listed, refused);
      fingerprint := if failed == {} then f else "";
      last := now;
      if failed == {} { PassLeaves(store, now, listed, refused, StoreOf(now.ep.namespace), hash); }
    }

    /** deleteGatewayModel: a stopped model's pair is taken off, and the next sync is not skipped. */
    method TakeOff(namespace: string, public: string, refused: set<string>) returns (ok: bool)
      requires Valid()
      modifies this`stores, this`fingerprint
      ensures Valid() && (old(Kept()) ==> Kept())
      ensures ok <==> public !in refused && Workload(public) !in refused
      ensures ok ==> fingerprint == "" && StoreOf(namespace) == old(StoreOf(namespace)) - {public, Workload(public)}
      ensures public in refused ==> fingerprint == old(fingerprint) && stores == old(stores)
      ensures forall ns :: ns != namespace ==> StoreOf(ns) == old(StoreOf(ns))
    {
      if public in refused { return false; }
      stores, fingerprint := stores[namespace := StoreOf(namespace) - {public}], "";
      if Workload(public) in refused { return false; }
      stores := stores[namespace := StoreOf(namespace) - {Workload(public)}];
      return true;
    }
  }

  /** Whether a pass that fails nothing leaves nothing to write: the desired objects have names
      of their own, and no deletion it came to make is refused. One that cannot list fails
      nothing when nothing is present, and leaves whatever there is. */
  ghost predicate LeavesNothing(store: Store, i: Input, listed: bool, refused: set<string>) {
    if listed
    then Apart(i.desired) && forall n :: n in store && n in refused && !IsWanted(i.desired, n) ==> Stays(store[n], i.desired, i.present)
    else store == map[]
  }

  /** What a pass makes of the store, whatever is refused. */
  ghost predicate IsOutcome(store: Store, i: Input, listed: bool, refused: set<string>, failed: set<string>, after: Store) {
    && (!listed ==> failed == i.present && after == store)
    && (listed ==> FailuresOf(i, store, refused, failed))
    && (listed && Apart(i.desired) ==> Settles(store, i.desired, i.present, refused, after))
    && (forall n :: n in refused ==> Agree(store, after, n))
  }

  ghost predicate FailuresOf(i: Input, store: Store, refused: set<string>, failed: set<string>) {
    forall p :: p in failed <==> p in i.desired && Fails(store, i.desired[p], refused)
  }

  /** The pass, but for todo, deletes what is under n. */
  predicate Goes(have: Store, todo: set<string>, desired: Desired, present: set<string>, refused: set<string>, n: string) {
    n in have && n !in todo && n !in refused && !Marked(have, desired, refused, n) && !Stays(have[n], desired, present)
  }

  lemma MarkedUnrefused(have: Store, desired: Desired, refused: set<string>, n: string)
    requires refused == {} || forall p :: p in desired ==> Unchanged(have, desired[p])
    ensures Marked(have, desired, refused, n) <==> IsWanted(desired, n)
  {
    if IsWanted(desired, n) {
      var p :| p in desired && Names(desired[p], n);
      assert Marks(have, desired[p], refused, n);
    }
    if Marked(have, desired, refused, n) {
      var p :| p in desired && Marks(have, desired[p], refused, n);
      assert Names(desired[p], n);
    }
  }

  lemma QuietIsNothingToDo(have: Store, desired: Desired, present: set<string>, refused: set<string>)
    ensures Quiet(have, desired, present) ==>
              (forall p :: p in desired ==> Unchanged(have, desired[p])) && forall n :: !Goes(have, {}, desired, present, refused, n)
    ensures refused == {} ==>
              (Quiet(have, desired, present) <==>
                 (forall p :: p in desired ==> Unchanged(have, desired[p])) && forall n :: !Goes(have, {}, desired, present, {}, n))
  {
    if refused == {} || forall p :: p in desired ==> Unchanged(have, desired[p]) {
      forall n ensures Marked(have, desired, refused, n) <==> IsWanted(desired, n) { MarkedUnrefused(have, desired, refused, n); }
      assert refused == {} ==> forall n ::
        (Goes(have, {}, desired, present, {}, n) <==> n in have && !IsWanted(desired, n) && !Stays(have[n], desired, present));
    }
  }

  lemma PassSettles(have: Store, desired: Desired, present: set<string>, refused: set<string>, written: Store, after: Store)
    requires AllWritten(have, desired, desired.Keys, refused, written)
    requires forall n :: if Goes(have, {}, desired, present, refused, n) then n !in after else Agree(written, after, n)
    requires forall n :: !Marked(have, desired, refused, n) ==> Agree(have, written, n)
    ensures Settles(have, desired, present, refused, after)
  {
    forall p | p in desired
      ensures IsWritten(have, desired[p].virtual, refused, after)
      ensures !Blocked(have, desired[p].virtual, refused) ==> IsWritten(have, desired[p].concrete, refused, after)
    {
      var v, c := desired[p].virtual, desired[p].concrete;
      assert PairWritten(have, desired[p], refused, written);
      assert Marks(have, desired[p], refused, v.name) && !Goes(have, {}, desired, present, refused, v.name);
      assert Agree(written, after, v.name);
      if !Blocked(have, v, refused) {
        assert Marks(have, desired[p], refused, c.name) && !Goes(have, {}, desired, present, refused, c.name);
        assert Agree(written, after, c.name);
      }
    }
    forall n | !Marked(have, desired, refused, n) ensures IsPruned(have, desired, present, refused, n, after) {
      assert Agree(have, written, n);
      assert !Goes(have, {}, desired, present, refused, n) ==> Agree(written, after, n);
    }
  }

  lemma SameStore(a: Store, b: Store)
    requires forall n :: Agree(a, b, n)
    ensures a == b
  {
    forall n ensures n in a <==> n in b { assert Agree(a, b, n); }
    forall n | n in a ensures a[n] == b[n] { assert Agree(a, b, n); }
  }

  /** An object outside todo that stays has the public name n. */
  ghost predicate HasStaying(have: Store, todo: set<string>, desired: Desired, present: set<string>, refused: set<string>, n: string) {
    exists m :: m in have && m !in todo && !Marked(have, desired, refused, m) && have[m].public == n && Stays(have[m], desired, present)
  }

  predicate Agree(a: Store, b: Store, n: string) { (n in a <==> n in b) && (n in a ==> a[n] == b[n]) }

  /** A pair is written as far as the API lets it. */
  predicate PairWritten(have: Store, pair: Pair, refused: set<string>, store: Store) {
    && IsWritten(have, pair.virtual, refused, store)
    && if Blocked(have, pair.virtual, refused) then Agree(have, store, pair.concrete.name)
       else IsWritten(have, pair.concrete, refused, store)
  }

  /** The pairs of done are written, and every other name is as it was. */
  ghost predicate AllWritten(have: Store, desired: Desired, done: set<string>, refused: set<string>, store: Store)
    requires done <= desired.Keys
  {
    && (forall p :: p in done ==> PairWritten(have, desired[p], refused, store))
    && (forall n :: !NamedBy(desired, done, n) ==> Agree(have, store, n))
  }

  function Put(have: Store, store: Store, obj: Object, refused: set<string>): (r: Store)
    ensures forall n :: n != obj.name ==> Agree(store, r, n)
    ensures Agree(have, store, obj.name) ==> IsWritten(have, obj, refused, r)
    ensures obj.name in refused ==> r == store
  {
    if Differs(have, obj) && obj.name !in refused then store[obj.name := obj] else store
  }

  function PutPair(have: Store, store: Store, pair: Pair, refused: set<string>): Store {
    if Blocked(have, pair.virtual, refused) then store
    else Put(have, Put(have, store, pair.virtual, refused), pair.concrete, refused)
  }

  lemma StillWritten(have: Store, obj: Object, refused: set<string>, before: Store, after: Store)
    requires IsWritten(have, obj, refused, before) && Agree(before, after, obj.name)
    ensures IsWritten(have, obj, refused, after)
  {
  }

  predicate AllUnchanged(have: Store, desired: Desired, done: set<string>)
    requires done <= desired.Keys
  {
    forall p :: p in done ==> Unchanged(have, desired[p])
  }

  function FailuresAmong(have: Store, desired: Desired, done: set<string>, refused: set<string>): set<string>
    requires done <= desired.Keys
  {
    set p | p in done && Fails(have, desired[p], refused)
  }

  /** The store after the pairs of done, whatever their names. */
  ghost predicate Written(have: Store, desired: Desired, done: set<string>, refused: set<string>, store: Store)
    requires done <= desired.Keys
  {
    && (Apart(desired) ==> AllWritten(have, desired, done, refused, store))
    && (AllUnchanged(have, desired, done) ==> store == have)
    && (forall n :: n in refused || !MarkedBy(have, desired, done, refused, n) ==> Agree(have, store, n))
  }

  lemma OneMoreDone(have: Store, desired: Desired, done: set<string>, p: string, refused: set<string>, store: Store)
    requires done <= desired.Keys && p in desired && p !in done && Written(have, desired, done, refused, store)
    ensures Written(have, desired, done + {p}, refused, PutPair(have, store, desired[p], refused))
  {
    MarkedByOneMore(have, desired, done, p, refused);
    var after := PutPair(have, store, desired[p], refused);
    PairTouches(have, store, desired[p], refused);
    if Apart(desired) { OneMoreWritten(have, desired, done, p, refused, store); }
    assert AllUnchanged(have, desired, done + {p}) ==> AllUnchanged(have, desired, done) && Unchanged(have, desired[p]) by {
      assert p in done + {p};
    }
    forall n | n in refused || !MarkedBy(have, desired, done + {p}, refused, n) ensures Agree(have, after, n) {
      assert Agree(have, store, n) && Agree(store, after, n);
    }
  }

  /** What the first loop knows after the pairs of done. */
  ghost predicate Reached(have: Store, desired: Desired, done: set<string>, refused: set<string>,
                          names: set<string>, failures: set<string>, writes: nat, wanted: set<string>)
    requires done <= desired.Keys
  {
    && names == done - failures && failures == FailuresAmong(have, desired, done, refused)
    && (forall n :: n in wanted <==> MarkedBy(have, desired, done, refused, n))
    && (refused == {} ==> (writes == 0 <==> AllUnchanged(have, desired, done)))
    && (AllUnchanged(have, desired, done) ==> writes == 0)
  }

  lemma ReachedOneMore(have: Store, desired: Desired, done: set<string>, p: string, refused: set<string>,
                       names: set<string>, failures: set<string>, writes: nat, wanted: set<string>,
                       ok: bool, wrote: nat, marks: set<string>)
    requires done <= desired.Keys && p in desired && p !in done
    requires Reached(have, desired, done, refused, names, failures, writes, wanted)
    requires ok <==> !Fails(have, desired[p], refused)
    requires forall n :: n in marks <==> Marks(have, desired[p], refused, n)
    requires refused == {} ==> (wrote == 0 <==> Unchanged(have, desired[p]))
    requires Unchanged(have, desired[p]) ==> wrote == 0
    ensures Reached(have, desired, done + {p}, refused, if ok then names + {p} else names,
                    if ok then failures else failures + {p}, writes + wrote, wanted + marks)
  {
    MarkedByOneMore(have, desired, done, p, refused);
    assert AllUnchanged(have, desired, done + {p}) <==> AllUnchanged(have, desired, done) && Unchanged(have, desired[p]) by {
      assert p in done + {p};
    }
    assert FailuresAmong(have, desired, done + {p}, refused)
           == FailuresAmong(have, desired, done, refused) + if ok then {} else {p};
  }

  lemma MarkedByOneMore(have: Store, desired: Desired, done: set<string>, p: string, refused: set<string>)
    requires done <= desired.Keys && p in desired
    ensures forall n :: MarkedBy(have, desired, done + {p}, refused, n) <==>
                          MarkedBy(have, desired, done, refused, n) || Marks(have, desired[p], refused, n)
  {
    forall n ensures MarkedBy(have, desired, done + {p}, refused, n) <==>
                       MarkedBy(have, desired, done, refused, n) || Marks(have, desired[p], refused, n)
    {
      if Marks(have, desired[p], refused, n) { assert p in done + {p}; }
      if MarkedBy(have, desired, done, refused, n) {
        var q :| q in done && Marks(have, desired[q], refused, n);
        assert q in done + {p};
      }
    }
  }

  /** A pair's writes touch only its own names, of those not refused. */
  lemma PairTouches(have: Store, store: Store, pair: Pair, refused: set<string>)
    ensures forall n :: n in refused || !Marks(have, pair, refused, n) ==> Agree(store, PutPair(have, store, pair, refused), n)
    ensures forall n :: !Names(pair, n) ==> Agree(store, PutPair(have, store, pair, refused), n)
    ensures Unchanged(have, pair) ==> PutPair(have, store, pair, refused) == store
  {
    var mid := Put(have, store, pair.virtual, refused);
    forall n | n in refused || !Names(pair, n) ensures Agree(store, PutPair(have, store, pair, refused), n) {
      assert Agree(store, mid, n) && Agree(mid, Put(have, mid, pair.concrete, refused), n);
    }
  }

  lemma PairIsWritten(have: Store, store: Store, pair: Pair, refused: set<string>)
    requires pair.virtual.name != pair.concrete.name
    requires Agree(have, store, pair.virtual.name) && Agree(have, store, pair.concrete.name)
    ensures PairWritten(have, pair, refused, PutPair(have, store, pair, refused))
  {
    var mid := Put(have, store, pair.virtual, refused);
    assert Agree(store, mid, pair.concrete.name);
    StillWritten(have, pair.virtual, refused, mid, Put(have, mid, pair.concrete, refused));
  }

  lemma OneMoreWritten(have: Store, desired: Desired, done: set<string>, p: string, refused: set<string>, before: Store)
    requires done <= desired.Keys && p in desired && p !in done && Apart(desired)
    requires AllWritten(have, desired, done, refused, before)
    ensures AllWritten(have, desired, done + {p}, refused, PutPair(have, before, desired[p], refused))
  {
    var v, c := desired[p].virtual, desired[p].concrete;
    var after := PutPair(have, before, desired[p], refused);
    PairTouches(have, before, desired[p], refused);
    assert forall n :: NamedBy(desired, done, n) ==> n != v.name && n != c.name;
    assert Agree(have, before, v.name) && Agree(have, before, c.name);
    PairIsWritten(have, before, desired[p], refused);
    forall q | q in done ensures PairWritten(have, desired[q], refused, after) {
      assert PairWritten(have, desired[q], refused, before);
      assert NamedBy(desired, done, desired[q].virtual.name) && NamedBy(desired, done, desired[q].concrete.name);
      assert Agree(before, after, desired[q].virtual.name) && Agree(before, after, desired[q].concrete.name);
    }
    forall n | !NamedBy(desired, done + {p}, n) ensures Agree(have, after, n) {
      assert !NamedBy(desired, done, n) && !Names(desired[p], n);
      assert Agree(have, before, n) && Agree(before, after, n);
    }
  }

  // ------------------------------------------------------------ the fingerprint

  /** A Kubernetes name: none of the fingerprint's separators. */
  predicate IsName(s: string) { Free(s, '|') && Free(s, '=') && Free(s, ';') }

  predicate IsDigest(s: string) { Free(s, '|') && Free(s, ',') && Free(s, ';') }

  /** Digests are hexadecimal and, as far as they matter here, tell specs apart. */
  ghost predicate IsHash(hash: Spec -> string) {
    (forall s :: IsDigest(hash(s))) && forall s, t :: hash(s) == hash(t) ==> s == t
  }

  function HashesOf(desired: Desired, name: string): seq<string> {
    if name in desired then [desired[name].virtual.hash, desired[name].concrete.hash] else []
  }

  function HashText(hashes: seq<string>): string {
    if hashes == [] then "" else hashes[0] + "," + HashText(hashes[1..])
  }

  function Entries(names: seq<string>, desired: Desired): string {
    if names == [] then "" else names[0] + "=" + (HashText(HashesOf(desired, names[0])) + ";" + Entries(names[1..], desired))
  }

  function Fingerprint(ep: Endpoint, desired: Desired, names: seq<string>): string {
    ep.namespace + "|" + (ep.endpoint + "|" + Entries(names, desired))
  }

  ghost predicate IsFingerprint(i: Input, s: string) {
    exists names :: Sorted(names) && (forall n :: n in names <==> n in i.present) && s == Fingerprint(i.ep, i.desired, names)
  }

  ghost predicate Readable(i: Input) {
    && IsName(i.ep.namespace) && i.desired.Keys <= i.present && (forall n :: n in i.present ==> IsName(n))
    && forall p :: p in i.desired ==> IsDigest(i.desired[p].virtual.hash) && IsDigest(i.desired[p].concrete.hash)
  }

  lemma {:induction false} HashTextFree(hashes: seq<string>)
    requires forall h :: h in hashes ==> IsDigest(h)
    ensures Free(HashText(hashes), ';') && Free(HashText(hashes), '|')
  {
    if hashes != [] {
      assert hashes[0] in hashes;
      HashTextFree(hashes[1..]);
    }
  }

  lemma {:induction false} HashTextInjective(a: seq<string>, b: seq<string>)
    requires forall h :: h in a + b ==> IsDigest(h)
    requires HashText(a) == HashText(b)
    ensures a == b
  {
    if a != [] && b != [] {
      assert a[0] in a + b && b[0] in a + b;
      assert HashText(a) == a[0] + [','] + HashText(a[1..]) && HashText(b) == b[0] + [','] + HashText(b[1..]);
      CutUnique(a[0], HashText(a[1..]), b[0], HashText(b[1..]), ',');
      assert forall h :: h in a[1..] + b[1..] ==> h in a + b;
      HashTextInjective(a[1..], b[1..]);
      assert a == [a[0]] + a[1..] && b == [b[0]] + b[1..];
    }
  }

  ghost predicate CleanEntries(names: seq<string>, desired: Desired) {
    forall n :: n in names ==> IsName(n) && forall h :: h in HashesOf(desired, n) ==> IsDigest(h)
  }

  lemma {:induction false} EntriesFree(names: seq<string>, desired: Desired)
    requires CleanEntries(names, desired)
    ensures Free(Entries(names, desired), '|')
  {
    if names != [] {
      assert names[0] in names;
      HashTextFree(HashesOf(desired, names[0]));
      EntriesFree(names[1..], desired);
    }
  }

  lemma {:induction false} EntriesInjective(a: seq<string>, d: Desired, b: seq<string>, e: Desired)
    requires CleanEntries(a, d) && CleanEntries(b, e)
    requires Entries(a, d) == Entries(b, e)
    ensures a == b && forall n :: n in a ==> HashesOf(d, n) == HashesOf(e, n)
  {
    if a != [] && b != [] {
      assert a[0] in a && b[0] in b;
      var x, y := HashText(HashesOf(d, a[0])), HashText(HashesOf(e, b[0]));
      var s, t := x + ";" + Entries(a[1..], d), y + ";" + Entries(b[1..], e);
      assert Entries(a, d) == a[0] + ['='] + s && Entries(b, e) == b[0] + ['='] + t;
      CutUnique(a[0], s, b[0], t, '=');
      HashTextFree(HashesOf(d, a[0]));
      HashTextFree(HashesOf(e, b[0]));
      CutUnique(x, Entries(a[1..], d), y, Entries(b[1..], e), ';');
      HashTextInjective(HashesOf(d, a[0]), HashesOf(e, b[0]));
      EntriesInjective(a[1..], d, b[1..], e);
      assert a == [a[0]] + a[1..] && b == [b[0]] + b[1..];
    }
  }

  /** One string tells a namespace, the public names, and each one's digests. */
  lemma SameFingerprint(i: Input, j: Input, s: string)
    requires Readable(i) && Readable(j) && IsFingerprint(i, s) && IsFingerprint(j, s)
    ensures i.ep.namespace == j.ep.namespace && i.present == j.present
    ensures forall n :: HashesOf(i.desired, n) == HashesOf(j.desired, n)
  {
    var a := NamesOf(i, s);
    var b := NamesOf(j, s);
    SameText(i.ep, i.desired, a, j.ep, j.desired, b);
    SameNames(i, j, a);
  }

  lemma NamesOf(i: Input, s: string) returns (names: seq<string>)
    requires Readable(i) && IsFingerprint(i, s)
    ensures (forall n :: n in names <==> n in i.present) && s == Fingerprint(i.ep, i.desired, names) && CleanEntries(names, i.desired)
  {
    names :| Sorted(names) && (forall n :: n in names <==> n in i.present) && s == Fingerprint(i.ep, i.desired, names);
  }

  lemma SameNames(i: Input, j: Input, names: seq<string>)
    requires i.desired.Keys <= i.present && j.desired.Keys <= j.present
    requires forall n :: n in names <==> n in i.present
    requires forall n :: n in names <==> n in j.present
    requires forall n :: n in names ==> HashesOf(i.desired, n) == HashesOf(j.desired, n)
    ensures i.present == j.present && forall n :: HashesOf(i.desired, n) == HashesOf(j.desired, n)
  {
    forall n ensures n in i.present <==> n in j.present { assert n in names <==> n in i.present; }
    forall n ensures HashesOf(i.desired, n) == HashesOf(j.desired, n) {
      assert n in i.desired || n in j.desired ==> n in names;
    }
  }

  lemma SameText(ep: Endpoint, d: Desired, a: seq<string>, ep': Endpoint, e: Desired, b: seq<string>)
    requires IsName(ep.namespace) && IsName(ep'.namespace) && CleanEntries(a, d) && CleanEntries(b, e)
    requires Fingerprint(ep, d, a) == Fingerprint(ep', e, b)
    ensures ep.namespace == ep'.namespace && a == b && forall n :: n in a ==> HashesOf(d, n) == HashesOf(e, n)
  {
    var s, t := Entries(a, d), Entries(b, e);
    EntriesFree(a, d);
    EntriesFree(b, e);
    var x, y := ep.endpoint + ['|'] + s, ep'.endpoint + ['|'] + t;
    assert Fingerprint(ep, d, a) == ep.namespace + ['|'] + x && Fingerprint(ep', e, b) == ep'.namespace + ['|'] + y;
    CutUnique(ep.namespace, x, ep'.namespace, y, '|');
    CutLast(ep.endpoint, s, ep'.endpoint, t, '|');
    EntriesInjective(a, d, b, e);
  }

  lemma OneFingerprint(i: Input, names: seq<string>, s: string)
    requires Sorted(names) && forall n :: n in names <==> n in i.present
    ensures IsFingerprint(i, s) <==> s == Fingerprint(i.ep, i.desired, names)
    ensures Fingerprint(i.ep, i.desired, names) != "" && IsFingerprint(i, Fingerprint(i.ep, i.desired, names))
  {
    forall a | Sorted(a) && forall n :: n in a <==> n in i.present ensures a == names { SortedUnique(a, names); }
  }

  lemma InputIsReadable(list: seq<Served>, i: Input, hash: Spec -> string)
    requires IsHash(hash) && InputOf(list, i, hash) && IsName(i.ep.namespace)
    requires forall sv :: sv in list ==> IsName(sv.public)
    ensures Readable(i)
  {
    forall p | p in i.desired ensures p in i.present && IsDigest(i.desired[p].virtual.hash) && IsDigest(i.desired[p].concrete.hash) {
      assert IsAnyDesired(list, p) && IsPairOf(i, hash, p);
      assert IsAnyPresent(list, p);
    }
    forall n | n in i.present ensures IsName(n) { assert IsAnyPresent(list, n); }
  }

  lemma SkipIsAlike(store: Store, i: Input, j: Input, s: string, hash: Spec -> string)
    requires Readable(i) && Readable(j) && IsFingerprint(i, s) && IsFingerprint(j, s) && Composed(i, hash) && Composed(j, hash)
    ensures i.ep.namespace == j.ep.namespace
    ensures Quiet(store, i.desired, i.present) <==> Quiet(store, j.desired, j.present)
  {
    SameFingerprint(i, j, s);
    if Quiet(store, i.desired, i.present) { QuietAlike(store, i, j, hash); }
    if Quiet(store, j.desired, j.present) { QuietAlike(store, j, i, hash); }
  }

  /** Inputs of one fingerprint have the same writes to make, on any store. */
  lemma QuietAlike(store: Store, i: Input, j: Input, hash: Spec -> string)
    requires Composed(i, hash) && Composed(j, hash)
    requires i.present == j.present && forall n :: HashesOf(i.desired, n) == HashesOf(j.desired, n)
    requires Quiet(store, i.desired, i.present)
    ensures Quiet(store, j.desired, j.present)
  {
    SamePairs(i, j, hash);
    forall p | p in j.desired ensures Unchanged(store, j.desired[p]) {
      assert Alike(i.desired[p], j.desired[p]) && Unchanged(store, i.desired[p]);
    }
    assert forall n :: n in store ==> Stays(store[n], i.desired, i.present) == Stays(store[n], j.desired, j.present);
  }

  predicate Alike(a: Pair, b: Pair) {
    && a.virtual.name == b.virtual.name && a.concrete.name == b.concrete.name
    && a.virtual.hash == b.virtual.hash && a.concrete.hash == b.concrete.hash
  }

  lemma SamePairs(i: Input, j: Input, hash: Spec -> string)
    requires Composed(i, hash) && Composed(j, hash)
    requires forall n :: HashesOf(i.desired, n) == HashesOf(j.desired, n)
    ensures i.desired.Keys == j.desired.Keys
    ensures forall p :: p in i.desired ==> Alike(i.desired[p], j.desired[p])
    ensures forall n :: IsWanted(i.desired, n) <==> IsWanted(j.desired, n)
  {
    forall p ensures p in i.desired <==> p in j.desired {
      assert HashesOf(i.desired, p) == HashesOf(j.desired, p);
    }
    forall p | p in i.desired ensures Alike(i.desired[p], j.desired[p]) {
      ComposedPair(i, hash, p);
      ComposedPair(j, hash, p);
      assert HashesOf(i.desired, p)[0] == HashesOf(j.desired, p)[0] && HashesOf(i.desired, p)[1] == HashesOf(j.desired, p)[1];
    }
    WantedAlike(i.desired, j.desired);
  }

  lemma WantedAlike(d: Desired, e: Desired)
    requires d.Keys == e.Keys && forall p :: p in d ==> Alike(d[p], e[p])
    ensures forall n :: IsWanted(d, n) <==> IsWanted(e, n)
  {
    forall n ensures IsWanted(d, n) <==> IsWanted(e, n) {
      assert forall p :: p in d ==> (Names(d[p], n) <==> Names(e[p], n));
    }
  }

  // ------------------------------------------------------------ what a pass leaves

  /** After a pass without a refused write, a second one writes nothing. */
  lemma SecondPassIsQuiet(store: Store, desired: Desired, present: set<string>, after: Store)
    requires Settles(store, desired, present, {}, after)
    ensures Quiet(after, desired, present)
  {
    forall n ensures Marked(store, desired, {}, n) <==> IsWanted(desired, n) { MarkedUnrefused(store, desired, {}, n); }
    forall p | p in desired ensures Unchanged(after, desired[p]) {
      assert IsWritten(store, desired[p].virtual, {}, after) && IsWritten(store, desired[p].concrete, {}, after);
    }
    forall n | n in after && !IsWanted(desired, n) ensures Stays(after[n], desired, present) {
      assert IsPruned(store, desired, present, {}, n, after);
    }
  }

  /** After a pass that failed nothing. */
  lemma PassLeaves(store: Store, i: Input, listed: bool, refused: set<string>, after: Store, hash: Spec -> string)
    requires IsHash(hash) && Readable(i) && Composed(i, hash)
    requires IsOutcome(store, i, listed, refused, {}, after)
    ensures Quiet(after, i.desired, i.present) <==> LeavesNothing(store, i, listed, refused)
  {
    if !listed {
      UnlistedLeaves(store, i.desired, i.present);
    } else if Apart(i.desired) {
      assert forall p :: p in i.desired && Fails(store, i.desired[p], refused) ==> p in {};
      ListedLeaves(store, i.desired, i.present, refused, after);
    } else if Quiet(after, i.desired, i.present) {
      QuietStoreExists(i, hash);
      ApartByName(i, hash);
    }
  }

  lemma NothingFails(store: Store, i: Input, refused: set<string>, failed: set<string>)
    ensures refused == {} && FailuresOf(i, store, refused, failed) ==> failed == {}
  {
  }

  lemma UnlistedLeaves(store: Store, desired: Desired, present: set<string>)
    requires desired.Keys <= present == {}
    ensures Quiet(store, desired, present) <==> store == map[]
  {
    if store != map[] {
      var n :| n in store;
      assert !IsWanted(desired, n) && !Stays(store[n], desired, present);
    }
  }

  lemma ListedLeaves(store: Store, desired: Desired, present: set<string>, refused: set<string>, after: Store)
    requires Settles(store, desired, present, refused, after)
    requires forall p :: p in desired ==> !Fails(store, desired[p], refused)
    ensures Quiet(after, desired, present)
       <==> forall n :: n in store && n in refused && !IsWanted(desired, n) ==> Stays(store[n], desired, present)
  {
    forall n ensures Marked(store, desired, refused, n) <==> IsWanted(desired, n) { MarkedUnfailed(store, desired, refused, n); }
    forall p | p in desired ensures Unchanged(after, desired[p]) {
      assert IsWritten(store, desired[p].virtual, refused, after) && IsWritten(store, desired[p].concrete, refused, after);
    }
    forall n | !IsWanted(desired, n) ensures IsPruned(store, desired, present, refused, n, after) {
      assert !Marked(store, desired, refused, n);
    }
  }

  lemma MarkedUnfailed(store: Store, desired: Desired, refused: set<string>, n: string)
    requires forall p :: p in desired ==> !Fails(store, desired[p], refused)
    ensures Marked(store, desired, refused, n) <==> IsWanted(desired, n)
  {
    if IsWanted(desired, n) {
      var p :| p in desired && Names(desired[p], n);
      assert Marks(store, desired[p], refused, n);
    }
    if Marked(store, desired, refused, n) {
      var p :| p in desired && Marks(store, desired[p], refused, n);
      assert Names(desired[p], n);
    }
  }

  /** The driver's objects as it composes them: the name and the spec tell the rest, but
      for what the public model's annotations say. */
  ghost predicate WellComposed(store: Store, hash: Spec -> string) {
    forall n :: n in store ==> store[n].name == n && IsComposed(store[n], hash)
  }

  predicate IsComposed(o: Object, hash: Spec -> string) {
    o.hash == hash(o.spec) &&
    match o.spec
    case Virtual(_, target) => o.name == o.public && target == Workload(o.public)
    case Concrete(_, model, name, namespace, _) => o.name == Workload(o.public) && o.model == model && o.serving == namespace + "/" + name
  }

  lemma ComposedPair(i: Input, hash: Spec -> string, p: string)
    requires Composed(i, hash) && p in i.desired
    ensures var pair := i.desired[p];
            && IsComposed(pair.virtual, hash) && IsComposed(pair.concrete, hash)
            && pair.virtual.spec.Virtual? && pair.concrete.spec.Concrete?
            && pair.virtual.name == p && pair.virtual.public == p && pair.concrete.name == Workload(p) && pair.concrete.public == p
  {
    assert IsPairOf(i, hash, p);
    var sv: Served :| sv.public == p && i.desired[p] == Compose(sv, i.ep, hash);
  }

  lemma WorkloadCancels(p: string, q: string)
    requires Workload(p) == Workload(q)
    ensures p == q
  {
    assert Workload(p)[..|p|] == p && Workload(q)[..|q|] == q;
  }

  /** The desired objects are apart exactly when no preset is named another's name plus "-workload". */
  lemma ApartByName(i: Input, hash: Spec -> string)
    requires Composed(i, hash)
    ensures Apart(i.desired) <==> forall p, q :: p in i.desired && q in i.desired ==> q != Workload(p)
  {
    forall p | p in i.desired ensures i.desired[p].virtual.name == p && i.desired[p].concrete.name == Workload(p) && Workload(p) != p {
      ComposedPair(i, hash, p);
      assert |Workload(p)| > |p|;
    }
    forall p, q | p in i.desired && q in i.desired && Workload(p) == Workload(q) ensures p == q { WorkloadCancels(p, q); }
    if Apart(i.desired) {
      forall p, q | p in i.desired && q in i.desired ensures q != Workload(p) {
        assert p != q ==> !Names(i.desired[q], i.desired[p].concrete.name);
      }
    }
  }

  /** A composed object equals one of the same name and spec, but for a public model's annotations. */
  lemma SameSpec(o: Object, want: Object, hash: Spec -> string)
    requires IsHash(hash) && IsComposed(o, hash) && IsComposed(want, hash) && o.name == want.name && o.hash == want.hash
    ensures o.(model := want.model, serving := want.serving) == want
    ensures want.spec.Concrete? ==> o == want
  {
    if want.spec.Concrete? { WorkloadCancels(o.public, want.public); }
  }

  /** A pass leaves the desired objects exactly, but for a public model whose spec was
      there already: it keeps its annotations. */
  lemma PassLeavesTheDesired(store: Store, i: Input, after: Store, hash: Spec -> string, p: string)
    requires IsHash(hash) && WellComposed(store, hash) && Composed(i, hash)
    requires Settles(store, i.desired, i.present, {}, after) && p in i.desired
    ensures var pair := i.desired[p];
            && pair.virtual.name in after && pair.concrete.name in after && after[pair.concrete.name] == pair.concrete
            && after[p].(model := pair.virtual.model, serving := pair.virtual.serving) == pair.virtual
            && (after[p] == pair.virtual <==>
                  Differs(store, pair.virtual) || (store[p].model == pair.virtual.model && store[p].serving == pair.virtual.serving))
  {
    var pair := i.desired[p];
    ComposedPair(i, hash, p);
    assert IsWritten(store, pair.virtual, {}, after) && IsWritten(store, pair.concrete, {}, after);
    if !Differs(store, pair.virtual) { SameSpec(store[p], pair.virtual, hash); }
    if !Differs(store, pair.concrete) { SameSpec(store[pair.concrete.name], pair.concrete, hash); }
  }

  /** What the driver composed is all it ever holds. */
  lemma PassStaysComposed(store: Store, i: Input, after: Store, hash: Spec -> string)
    requires WellComposed(store, hash) && Composed(i, hash) && Settles(store, i.desired, i.present, {}, after)
    ensures WellComposed(after, hash)
  {
    forall n | n in after ensures after[n].name == n && IsComposed(after[n], hash) {
      MarkedUnrefused(store, i.desired, {}, n);
      if !IsWanted(i.desired, n) {
        assert IsPruned(store, i.desired, i.present, {}, n, after);
      } else {
        var p :| p in i.desired && Names(i.desired[p], n);
        ComposedPair(i, hash, p);
        assert IsWritten(store, i.desired[p].virtual, {}, after) && IsWritten(store, i.desired[p].concrete, {}, after);
      }
    }
  }

  /** After a pass without a refused write every object on the endpoint is of a served model that is
      not being deleted; and the concrete one says a model that is Ready and answers, or none
      of its name does. */
  lemma OnEndpoint(list: seq<Served>, i: Input, hash: Spec -> string, store: Store, after: Store, n: string)
    requires InputOf(list, i, hash) && IsHash(hash) && WellComposed(store, hash)
    requires Settles(store, i.desired, i.present, {}, after) && n in after
    ensures exists sv :: sv in list && sv.public == after[n].public && sv.public != "" && !sv.deleting
    ensures after[n].spec.Concrete? ==>
              || (exists sv :: sv in list && Answers(sv, after[n].public)
                               && after[n].spec == Concrete(i.ep.parentRefs, sv.model, sv.name, sv.namespace, sv.formats))
              || (forall sv :: sv in list ==> !Answers(sv, after[n].public))
  {
    var o := after[n];
    MarkedUnrefused(store, i.desired, {}, n);
    if IsWanted(i.desired, n) {
      var p := WantedIs(store, i, after, hash, n);
      InputIs(list, i, hash, p);
    } else {
      assert IsPruned(store, i.desired, i.present, {}, n, after);
      InputIs(list, i, hash, o.public);
    }
  }

  /** Not being deleted, of that public name, Ready, and read with formats to serve. */
  ghost predicate Answers(sv: Served, p: string) {
    sv.public == p && p != "" && !sv.deleting && sv.ready && sv.read && |sv.formats| > 0
  }

  lemma WantedIs(store: Store, i: Input, after: Store, hash: Spec -> string, n: string) returns (p: string)
    requires IsHash(hash) && WellComposed(store, hash) && Composed(i, hash) && Settles(store, i.desired, i.present, {}, after)
    requires IsWanted(i.desired, n) && n in after
    ensures p in i.desired && after[n].public == p
    ensures after[n].spec.Concrete? ==> after[n] == i.desired[p].concrete
  {
    p :| p in i.desired && Names(i.desired[p], n);
    PassLeavesTheDesired(store, i, after, hash, p);
    ComposedPair(i, hash, p);
  }

  /** Some store has nothing left to write exactly when no public name is another's
      workload's: two presets that clash are written over each other for ever. */
  lemma QuietStoreExists(i: Input, hash: Spec -> string)
    requires IsHash(hash) && Composed(i, hash)
    ensures (exists store :: Quiet(store, i.desired, i.present))
            <==> (forall p, q :: p in i.desired && q in i.desired ==> q != Workload(p))
  {
    ApartByName(i, hash);
    if Apart(i.desired) {
      var store := StoreWith(i.desired, i.desired.Keys);
      forall p | p in i.desired ensures Unchanged(store, i.desired[p]) {
        assert PairWritten(map[], i.desired[p], {}, store);
      }
      forall n | n in store ensures IsWanted(i.desired, n) { assert !IsWanted(i.desired, n) ==> Agree(map[], store, n); }
      assert Quiet(store, i.desired, i.present);
    }
    forall store, p, q | Quiet(store, i.desired, i.present) && p in i.desired && q in i.desired ensures q != Workload(p) {
      ComposedPair(i, hash, p);
      ComposedPair(i, hash, q);
      assert Unchanged(store, i.desired[p]) && Unchanged(store, i.desired[q]);
    }
  }

  /** A store of the objects of some pairs, and no others. */
  lemma {:induction false} StoreWith(desired: Desired, done: set<string>) returns (store: Store)
    requires Apart(desired) && done <= desired.Keys
    ensures AllWritten(map[], desired, done, {}, store)
  {
    if done == {} { return map[]; }
    var p :| p in done;
    store := StoreWith(desired, done - {p});
    OneMoreWritten(map[], desired, done - {p}, p, {}, store);
    store := PutPair(map[], store, desired[p], {});
    assert done - {p} + {p} == done;
  }

  /** A refused write of a public model takes its running concrete model off: the pair is not
      gone through, so the second loop finds the concrete one not wanted. */
  lemma RefusedWriteTakesConcreteOff(store: Store, i: Input, refused: set<string>, after: Store, hash: Spec -> string, p: string)
    requires WellComposed(store, hash) && Composed(i, hash) && Apart(i.desired) && p in i.desired
    requires Settles(store, i.desired, i.present, refused, after) && Workload(p) !in i.present
    ensures Workload(p) in store && Workload(p) !in after <==>
              Workload(p) in store && Workload(p) !in refused && Blocked(store, i.desired[p].virtual, refused)
  {
    var pair := i.desired[p];
    ComposedPair(i, hash, p);
    if Blocked(store, pair.virtual, refused) {
      OnlyItsPair(store, i.desired, refused, p);
      assert IsPruned(store, i.desired, i.present, refused, Workload(p), after);
      if Workload(p) in store { ConcreteIsOf(store[Workload(p)], hash, p, i.desired); }
    } else {
      assert IsWritten(store, pair.concrete, refused, after);
    }
  }

  lemma OnlyItsPair(store: Store, desired: Desired, refused: set<string>, p: string)
    requires Apart(desired) && p in desired && Blocked(store, desired[p].virtual, refused)
    ensures !Marked(store, desired, refused, desired[p].concrete.name)
  {
    forall q | q in desired ensures !Marks(store, desired[q], refused, desired[p].concrete.name) {
      assert q != p ==> !Names(desired[q], desired[p].concrete.name);
    }
  }

  /** What stands under a desired pair's concrete name is of a desired public name, or was
      the public model of the name that clashed with it. */
  lemma ConcreteIsOf(o: Object, hash: Spec -> string, p: string, desired: Desired)
    requires IsComposed(o, hash) && o.name == Workload(p) && p in desired
    ensures o.spec.Concrete? ==> o.public in desired
    ensures o.spec.Virtual? ==> o.public == Workload(p)
  {
    if o.spec.Concrete? { WorkloadCancels(o.public, p); }
  }

  const SAMPLE := Served("p", "p", "serving", "m", false, true, true, ["openai"])

  function SampleEndpoint(parentRefs: seq<string>): Endpoint { Endpoint("models", "http://llm", parentRefs) }

  lemma SampleInput(i: Input, hash: Spec -> string, parentRefs: seq<string>)
    requires IsHash(hash) && InputOf([SAMPLE], i, hash) && i.ep == SampleEndpoint(parentRefs)
    ensures i.present == {"p"} && i.desired.Keys == {"p"} && Apart(i.desired) && Workload("p") !in i.present
    ensures var virtual := i.desired["p"].virtual;
            virtual.name == "p" && virtual.hash == hash(Virtual(parentRefs, Workload("p"))) && virtual.model == SAMPLE.model
  {
    assert SAMPLE in [SAMPLE] && IsAnyDesired([SAMPLE], "p") && IsAnyPresent([SAMPLE], "p");
    assert IsOfLast([SAMPLE], i, hash, "p");
    assert |Workload("p")| != |"p"|;
    ApartByName(i, hash);
  }

  /** A listener that gains a parent, and an update of the public model "p" the API refuses:
      the running model's concrete object is gone. */
  method RefusedUpdateDropsModel(hash: Spec -> string) returns (after: Store, before: Store)
    requires IsHash(hash)
    ensures "p" in before && "p" in after && after["p"] == before["p"]
    ensures Workload("p") in before && Workload("p") !in after
  {
    before := SampleStore(hash);
    var g := new Gateway(hash, map["models" := before]);
    var skipped, now := g.Sync(SampleEndpoint(["llm", "external"]), [SAMPLE], false, true, {"p"});
    after := g.StoreOf("models");
    SampleIsDropped(now, after, hash);
  }

  /** What a pass for the one parent left. */
  function SampleStore(hash: Spec -> string): Store {
    var pair := Compose(SAMPLE, SampleEndpoint(["llm"]), hash);
    map["p" := pair.virtual, Workload("p") := pair.concrete]
  }

  lemma SampleIsDropped(i: Input, after: Store, hash: Spec -> string)
    requires IsHash(hash) && InputOf([SAMPLE], i, hash) && i.ep == SampleEndpoint(["llm", "external"])
    requires Apart(i.desired) ==> Settles(SampleStore(hash), i.desired, i.present, {"p"}, after)
    requires Agree(SampleStore(hash), after, "p")
    ensures var store := SampleStore(hash);
            "p" in store && "p" in after && after["p"] == store["p"] && Workload("p") in store && Workload("p") !in after
  {
    assert |Workload("p")| != |"p"|;
    SampleInput(i, hash, ["llm", "external"]);
    SampleIsBlocked(SampleStore(hash), i, hash);
    RefusedWriteTakesConcreteOff(SampleStore(hash), i, {"p"}, after, hash, "p");
  }

  lemma SampleIsBlocked(store: Store, i: Input, hash: Spec -> string)
    requires IsHash(hash) && InputOf([SAMPLE], i, hash) && i.ep == SampleEndpoint(["llm", "external"])
    requires store.Keys == {"p", Workload("p")} && store["p"] == Compose(SAMPLE, SampleEndpoint(["llm"]), hash).virtual
    requires store[Workload("p")] == Compose(SAMPLE, SampleEndpoint(["llm"]), hash).concrete
    ensures "p" in i.desired && Blocked(store, i.desired["p"].virtual, {"p"}) && WellComposed(store, hash)
    ensures Workload("p") !in {"p"}
  {
    SampleInput(i, hash, ["llm", "external"]);
    assert |["llm"]| != |["llm", "external"]|;
    assert Virtual(["llm"], Workload("p")) != Virtual(["llm", "external"], Workload("p"));
    assert |Workload("p")| != |"p"|;
  }

  /** A refused deletion is not a failure the fingerprint remembers: the next pass is skipped
      though an object is left to delete. */
  method ForgottenDeletion(hash: Spec -> string) returns (g: Gateway, skipped: bool)
    requires IsHash(hash)
    ensures skipped && !Quiet(g.StoreOf("models"), map[], {})
  {
    var ep := Endpoint("models", "http://llm", ["llm"]);
    var gone := Served("p", "p", "serving", "m", false, true, true, ["openai"]);
    g := new Gateway(hash, map["models" := map["p" := Compose(gone, ep, hash).virtual]]);
    var first, second;
    skipped, first := g.Sync(ep, [], false, true, {"p"});
    assert first.present == {} && first.desired.Keys == {};
    assert "p" in g.StoreOf("models");
    skipped, second := g.Sync(ep, [], true, true, {});
    assert second.present == {} && second.desired.Keys == {};
    assert second == first;
    assert !IsWanted(map[], "p");
  }

  /** Nor is a list that fails while no model is present. */
  method ForgottenList(hash: Spec -> string) returns (g: Gateway, skipped: bool)
    requires IsHash(hash)
    ensures skipped && !Quiet(g.StoreOf("models"), map[], {})
  {
    var ep := Endpoint("models", "http://llm", ["llm"]);
    var gone := Served("p", "p", "serving", "m", false, true, true, ["openai"]);
    g := new Gateway(hash, map["models" := map["p" := Compose(gone, ep, hash).virtual]]);
    var first, second;
    skipped, first := g.Sync(ep, [], false, false, {});
    assert first.present == {} && first.desired.Keys == {};
    assert "p" in g.StoreOf("models");
    skipped, second := g.Sync(ep, [], true, true, {});
    assert second.present == {} && second.desired.Keys == {};
    assert second == first;
    assert !IsWanted(map[], "p");
  }

  /** A public model whose object says of another model, its spec being the same: the pass
      leaves what it says. */
  method OutdatedAnnotationsStay(hash: Spec -> string, outdated: string) returns (g: Gateway, skipped: bool)
    requires IsHash(hash)
    ensures !skipped && "p" in g.StoreOf("models") && g.StoreOf("models")["p"].model == outdated
    ensures "p" in g.last.desired && g.last.desired["p"].virtual.model == SAMPLE.model
  {
    var before := map["p" := Compose(SAMPLE, SampleEndpoint(["llm"]), hash).virtual.(model := outdated)];
    g := new Gateway(hash, map["models" := before]);
    var now;
    skipped, now := g.Sync(SampleEndpoint(["llm"]), [SAMPLE], false, true, {});
    OutdatedIsKept(before, now, g.StoreOf("models"), hash);
  }

  lemma OutdatedIsKept(store: Store, i: Input, after: Store, hash: Spec -> string)
    requires IsHash(hash) && InputOf([SAMPLE], i, hash) && i.ep == SampleEndpoint(["llm"])
    requires "p" in store && store["p"].hash == hash(Virtual(["llm"], Workload("p")))
    requires Apart(i.desired) ==> Settles(store, i.desired, i.present, {}, after)
    ensures "p" in after && after["p"] == store["p"] && "p" in i.desired && i.desired["p"].virtual.model == SAMPLE.model
  {
    SampleInput(i, hash, ["llm"]);
    assert IsWritten(store, i.desired["p"].virtual, {}, after);
  }
}
