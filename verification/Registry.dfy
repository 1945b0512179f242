/** Backend documents registered as they appear, change and go (internal/registry,
    internal/service/service.go): the registry's and the service's coupled fields
    are a function of the static backends and the latest documents. */
module Registry {
  import opened Text

  /** A backend as built; build tells two builds of one name apart. */
  datatype Backend = Backend(name: string, build: nat)

  datatype Source = Static | Person | ClusterManager

  type Name = s: string | s != "" witness "kserve"

  /** Why a document registers nothing; no problem clears the report. */
  datatype Problem = NoProblem | NoDocument | Malformed(error: string) | WrongConfigMap | NotBuilt(error: string) | StaticBackend

  /** A ConfigMap's document as read: what ParseDocument and the builder say of it. */
  datatype Document =
    | NoKey
    | Unparsable(error: string)
    | Parsed(name: Name, byClusterManager: bool, build: Build)

  datatype Build = Built(id: nat) | BuildFails(error: string)

  const PREFIX := "model-manager-backend-"

  function DocumentName(name: string): string { PREFIX + name }

  datatype Load = Loaded(b: Backend, source: Source) | Refused(problem: Problem)

  /** Registry.load. */
  function LoadOf(configMap: string, d: Document): (r: Load)
    ensures r.Loaded? ==> configMap == DocumentName(r.b.name) && r.b.name != "" && !r.source.Static?
    ensures r.Refused? ==> !r.problem.NoProblem? && !r.problem.StaticBackend?
  {
    match d
    case NoKey => Refused(NoDocument)
    case Unparsable(error) => Refused(Malformed(error))
    case Parsed(name, byClusterManager, build) =>
      if configMap != DocumentName(name) then Refused(WrongConfigMap)
      else match build
        case BuildFails(error) => Refused(NotBuilt(error))
        case Built(id) => Loaded(Backend(name, id), if byClusterManager then ClusterManager else Person)
  }

  /** A document loads when it parses, lies in the ConfigMap of its backend's name and builds: the
      backend is the one built, its source who wrote it. */
  lemma LoadSays(configMap: string, d: Document)
    ensures var r := LoadOf(configMap, d);
            && (r.Loaded? <==> d.Parsed? && configMap == "model-manager-backend-" + d.name && d.build.Built?)
            && (r.Loaded? ==> r.b == Backend(d.name, d.build.id) && r.source == if d.byClusterManager then ClusterManager else Person)
            && (d.NoKey? ==> r == Refused(NoDocument)) && (d.Unparsable? ==> r == Refused(Malformed(d.error)))
            && (d.Parsed? && configMap != "model-manager-backend-" + d.name ==> r == Refused(WrongConfigMap))
            && (d.Parsed? && r.Refused? && r.problem != WrongConfigMap ==> d.build.BuildFails? && r.problem == NotBuilt(d.build.error))
  {
  }

  function Names(bs: seq<Backend>): seq<string> { seq(|bs|, i requires 0 <= i < |bs| => bs[i].name) }

  predicate IsStatic(fixed: seq<Backend>, name: string) { exists b :: b in fixed && b.name == name }

  predicate Accepted(fixed: seq<Backend>, configMap: string, d: Document) {
    LoadOf(configMap, d).Loaded? && !IsStatic(fixed, LoadOf(configMap, d).b.name)
  }

  function ProblemOf(configMap: string, d: Document): Problem {
    match LoadOf(configMap, d) case Loaded(_, _) => StaticBackend case Refused(problem) => problem
  }

  type Latest = map<string, Document>

  // ------------------------------------------------------------ the service

  ghost predicate DistinctNames(bs: seq<Backend>) {
    forall i, j :: 0 <= i < j < |bs| ==> bs[i].name != bs[j].name
  }

  ghost predicate SortedByName(bs: seq<Backend>) {
    forall i, j :: 0 <= i < j < |bs| ==> Less(bs[i].name, bs[j].name)
  }

  /** byName and sources agree, and hold the static backends as static and no other. */
  ghost predicate Coherent(fixed: seq<Backend>, byName: map<string, Backend>, sources: map<string, Source>) {
    && DistinctNames(fixed)
    && byName.Keys == sources.Keys
    && (forall n :: n in byName ==> byName[n].name == n)
    && (forall b :: b in fixed ==> b.name in byName && sources[b.name].Static? && byName[b.name] == b)
    && (forall n :: n in byName && sources[n].Static? ==> IsStatic(fixed, n))
  }

  /** bs lists the registered backends, sorted by name. */
  ghost predicate Lists(bs: seq<Backend>, byName: map<string, Backend>, sources: map<string, Source>)
    requires byName.Keys == sources.Keys
  {
    SortedByName(bs) &&
    forall b :: b in bs <==> b.name in byName && !sources[b.name].Static? && byName[b.name] == b
  }

  /** The first i static backends. */
  ghost predicate HoldsFirst(bs: seq<Backend>, i: nat, byName: map<string, Backend>, sources: map<string, Source>)
    requires i <= |bs|
  {
    && byName.Keys == sources.Keys == (set n | n in Names(bs[..i]))
    && (forall j :: 0 <= j < i ==> bs[j].name in byName && byName[bs[j].name] == bs[j])
    && (forall n :: n in byName ==> byName[n].name == n && sources[n].Static?)
  }

  lemma OneMoreStatic(bs: seq<Backend>, i: nat, byName: map<string, Backend>, sources: map<string, Source>)
    requires DistinctNames(bs) && i < |bs| && HoldsFirst(bs, i, byName, sources)
    ensures HoldsFirst(bs, i + 1, byName[bs[i].name := bs[i]], sources[bs[i].name := Static])
  {
    assert Names(bs[..i + 1]) == Names(bs[..i]) + [bs[i].name];
  }

  lemma AllStatic(bs: seq<Backend>, byName: map<string, Backend>, sources: map<string, Source>)
    requires DistinctNames(bs) && HoldsFirst(bs, |bs|, byName, sources)
    ensures Coherent(bs, byName, sources) && Lists([], byName, sources) && byName.Keys == set n | n in Names(bs)
  {
    assert bs[..|bs|] == bs;
    forall n | n in byName ensures IsStatic(bs, n) {
      var j :| 0 <= j < |bs| && Names(bs)[j] == n;
      assert bs[j] in bs;
    }
  }

  class Service {
    // The backends slice: a backing array and a length.
    var backing: array<Backend>
    var len: nat
    var byName: map<string, Backend>
    var sources: map<string, Source>
    var problems: map<string, Problem>
    const fixedCount: nat
    ghost const staticBackends: seq<Backend>

    ghost predicate Valid()
      reads this, backing
    {
      && fixedCount == |staticBackends| <= len <= backing.Length
      && Coherent(staticBackends, byName, sources)
      && backing[..fixedCount] == staticBackends
      && Lists(backing[fixedCount..len], byName, sources)
    }

    constructor (backends: seq<Backend>)
      requires DistinctNames(backends)
      ensures Valid() && staticBackends == backends && problems == map[]
      ensures backing[..len] == backends && byName.Keys == set n | n in Names(backends)
    {
      backing := new Backend[|backends|](i requires 0 <= i < |backends| => backends[i]);
      len, fixedCount, staticBackends, problems := |backends|, |backends|, backends, map[];
      byName := map[];
      sources := map[];
      new;
      for i := 0 to |backends|
        invariant len == |backends| && fixedCount == |backends| && staticBackends == backends && problems == map[]
        invariant fresh(backing) && backing.Length == |backends| && backing[..] == backends
        invariant HoldsFirst(backends, i, byName, sources)
      {
        OneMoreStatic(backends, i, byName, sources);
        byName := byName[backends[i].name := backends[i]];
        sources := sources[backends[i].name := Static];
      }
      AllStatic(backends, byName, sources);
    }

    /** rebuildLocked: the static part kept in place, a new slice for the registered ones. */
    method Rebuild()
      requires len <= backing.Length && fixedCount <= len && byName.Keys == sources.Keys
      requires forall n :: n in byName ==> byName[n].name == n
      modifies this`backing, this`len
      ensures fixedCount <= len <= backing.Length && (backing == old(backing) || fresh(backing))
      ensures backing[..fixedCount] == old(backing[..fixedCount])
      ensures Lists(backing[fixedCount..len], byName, sources)
    {
      var registered: seq<Backend> := [];
      var todo := byName.Keys;
      while todo != {}
        invariant backing == old(backing) && len == old(len)
        invariant todo <= byName.Keys && SortedByName(registered)
        invariant forall b :: b in registered <==>
                    b.name in byName && b.name !in todo && !sources[b.name].Static? && byName[b.name] == b
      {
        var name :| name in todo;
        if !sources[name].Static? { registered := InsertByName(registered, byName[name]); }
        todo := todo - {name};
      }
      if registered == [] {
        len := fixedCount;                       // append of nothing: the slice's own array, cut
      } else {
        var all := backing[..fixedCount] + registered;
        backing := new Backend[|all|](i requires 0 <= i < |all| => all[i]);
        assert backing[..] == all;
        len := |all|;
        assert backing[fixedCount..len] == registered;
      }
    }

    /** RegisterDocument: false when the name is a static one's. */
    method RegisterDocument(b: Backend, source: Source, configMap: string) returns (ok: bool)
      requires Valid() && !source.Static?
      modifies this`backing, this`len, this`byName, this`sources, this`problems
      ensures Valid() && (backing == old(backing) || fresh(backing))
      ensures ok <==> !IsStatic(staticBackends, b.name)
      ensures ok ==> byName == old(byName)[b.name := b] && sources == old(sources)[b.name := source]
                     && problems == old(problems) - {configMap}
      ensures !ok ==> byName == old(byName) && sources == old(sources) && problems == old(problems)
    {
      if b.name in sources && sources[b.name].Static? { return false; }
      byName := byName[b.name := b];
      sources := sources[b.name := source];
      Rebuild();
      problems := problems - {configMap};
      return true;
    }

    /** DeregisterDocument: an empty name is dropped nowhere, an empty problem clears the report. */
    method DeregisterDocument(name: string, configMap: string, problem: Problem) returns (dropped: bool)
      requires Valid()
      modifies this`backing, this`len, this`byName, this`sources, this`problems
      ensures Valid() && (backing == old(backing) || fresh(backing))
      ensures problems == if problem.NoProblem? then old(problems) - {configMap} else old(problems)[configMap := problem]
      ensures dropped <==> name in old(sources) && !old(sources)[name].Static?
      ensures byName == (if dropped then old(byName) - {name} else old(byName))
      ensures sources == (if dropped then old(sources) - {name} else old(sources))
    {
      problems := if problem.NoProblem? then problems - {configMap} else problems[configMap := problem];
      if name !in sources || sources[name].Static? { return false; }
      CoherentDrop(staticBackends, byName, sources, name);
      byName := byName - {name};
      sources := sources - {name};
      Rebuild();
      return true;
    }
  }

  lemma CoherentDrop(fixed: seq<Backend>, byName: map<string, Backend>, sources: map<string, Source>, name: string)
    requires Coherent(fixed, byName, sources) && name in byName && !sources[name].Static?
    ensures Coherent(fixed, byName - {name}, sources - {name})
  {
  }

  /** Insertion by name, of a name not there. */
  method InsertByName(bs: seq<Backend>, b: Backend) returns (r: seq<Backend>)
    requires SortedByName(bs) && forall c :: c in bs ==> c.name != b.name
    ensures SortedByName(r) && forall c :: c in r <==> c == b || c in bs
  {
    var i := 0;
    while i < |bs| && Less(bs[i].name, b.name)
      invariant 0 <= i <= |bs| && forall j :: 0 <= j < i ==> Less(bs[j].name, b.name)
    {
      i := i + 1;
    }
    r := bs[..i] + [b] + bs[i..];
    forall j | i <= j < |bs| ensures Less(b.name, bs[j].name) {
      LessTrichotomy(bs[i].name, b.name);
      if i < j { LessTransitive(b.name, bs[i].name, bs[j].name); }
    }
    forall c ensures c in r <==> c == b || c in bs {
      if c in bs {
        var j :| 0 <= j < |bs| && bs[j] == c;
        var k := if j < i then j else j + 1;
        assert r[k] == c;
      }
      assert r[i] == b;
    }
  }

  // ------------------------------------------------------------ the registry

  datatype Event = Upserted(configMap: string, d: Document) | Deleted(configMap: string)

  function After(latest: Latest, e: Event): Latest {
    match e case Upserted(configMap, d) => latest[configMap := d] case Deleted(configMap) => latest - {configMap}
  }

  function AfterAll(latest: Latest, events: seq<Event>): Latest
    decreases |events|
  {
    if events == [] then latest else After(AfterAll(latest, events[..|events| - 1]), events[|events| - 1])
  }

  ghost predicate IsRegistered(fixed: seq<Backend>, latest: Latest, n: string) {
    DocumentName(n) in latest && Accepted(fixed, DocumentName(n), latest[DocumentName(n)])
  }

  /** Every field of the registry and the service, by the static backends and the
      latest document of each ConfigMap. */
  ghost predicate Tied(fixed: seq<Backend>, latest: Latest, byName: map<string, Backend>, sources: map<string, Source>,
                       names: map<string, string>, problems: map<string, Problem>)
    requires byName.Keys == sources.Keys
  {
    TiedBackends(fixed, latest, byName, sources) && TiedNames(fixed, latest, names) && TiedProblems(fixed, latest, problems)
  }

  ghost predicate TiedBackends(fixed: seq<Backend>, latest: Latest, byName: map<string, Backend>, sources: map<string, Source>)
    requires byName.Keys == sources.Keys
  {
    forall n :: TiedBackend(fixed, latest, byName, sources, n)
  }

  ghost predicate TiedBackend(fixed: seq<Backend>, latest: Latest, byName: map<string, Backend>,
                              sources: map<string, Source>, n: string)
    requires byName.Keys == sources.Keys
  {
    && (n in byName <==> IsStatic(fixed, n) || IsRegistered(fixed, latest, n))
    && (IsRegistered(fixed, latest, n) ==>
          LoadOf(DocumentName(n), latest[DocumentName(n)]) == Loaded(byName[n], sources[n]))
  }

  ghost predicate TiedNames(fixed: seq<Backend>, latest: Latest, names: map<string, string>) {
    && (forall m :: m in names <==> m in latest && Accepted(fixed, m, latest[m]))
    && (forall m :: m in names ==> m == DocumentName(names[m]))
  }

  ghost predicate TiedProblems(fixed: seq<Backend>, latest: Latest, problems: map<string, Problem>) {
    && (forall m :: m in problems <==> m in latest && !Accepted(fixed, m, latest[m]))
    && (forall m :: m in problems ==> problems[m] == ProblemOf(m, latest[m]))
  }

  class Registry {
    const svc: Service
    var names: map<string, string>
    ghost var latest: Latest

    ghost predicate Valid()
      reads this, svc, svc.backing
    {
      svc.Valid() && Tied(svc.staticBackends, latest, svc.byName, svc.sources, names, svc.problems)
    }

    constructor (svc: Service)
      requires svc.Valid() && svc.problems == map[]
      requires forall n :: n in svc.byName ==> IsStatic(svc.staticBackends, n)
      ensures Valid() && this.svc == svc && latest == map[]
    {
      this.svc := svc;
      names, latest := map[], map[];
    }

    /** upsert: register what loads, else report it and drop what the ConfigMap registered. */
    method Upsert(configMap: string, d: Document)
      requires Valid()
      modifies this, svc
      ensures Valid() && latest == old(latest)[configMap := d]
      ensures svc.backing == old(svc.backing) || fresh(svc.backing)
    {
      var load := LoadOf(configMap, d);
      var problem := NoProblem;
      if load.Loaded? {
        var ok := svc.RegisterDocument(load.b, load.source, configMap);
        if !ok { problem := StaticBackend; }
      } else {
        problem := load.problem;
      }
      latest := latest[configMap := d];
      if !problem.NoProblem? {
        ForgetLocked(configMap, problem, old(latest), Upserted(configMap, d));
      } else {
        names := names[configMap := load.b.name];
        TiedRegister(svc.staticBackends, old(latest), old(svc.byName), old(svc.sources), old(names), old(svc.problems),
                     configMap, d);
      }
    }

    /** delete. */
    method Delete(configMap: string)
      requires Valid()
      modifies this, svc
      ensures Valid() && latest == old(latest) - {configMap}
      ensures svc.backing == old(svc.backing) || fresh(svc.backing)
    {
      latest := latest - {configMap};
      ForgetLocked(configMap, NoProblem, old(latest), Deleted(configMap));
    }

    /** forgetLocked, called for an event that registers nothing. */
    method ForgetLocked(configMap: string, problem: Problem, ghost was: Latest, ghost e: Event)
      requires svc.Valid() && Tied(svc.staticBackends, was, svc.byName, svc.sources, names, svc.problems)
      requires e.configMap == configMap && latest == After(was, e)
      requires e.Upserted? ==> !Accepted(svc.staticBackends, configMap, e.d) && problem == ProblemOf(configMap, e.d)
      requires e.Deleted? ==> problem.NoProblem?
      modifies this`names, svc
      ensures Valid() && (svc.backing == old(svc.backing) || fresh(svc.backing))
    {
      var name := if configMap in names then names[configMap] else "";
      names := names - {configMap};
      TiedForget(svc.staticBackends, was, svc.byName, svc.sources, old(names), svc.problems, e, problem);
      var dropped := svc.DeregisterDocument(name, configMap, problem);
    }

    method Handle(e: Event)
      requires Valid()
      modifies this, svc
      ensures Valid() && latest == After(old(latest), e)
      ensures svc.backing == old(svc.backing) || fresh(svc.backing)
    {
      match e
      case Upserted(configMap, d) => Upsert(configMap, d);
      case Deleted(configMap) => Delete(configMap);
    }

    /** Any sequence of events, beside a list snapshot taken before: the fields end up
        as Valid says of the latest documents, and the snapshot is never altered. */
    method Replay(events: seq<Event>, snapshot: array<Backend>)
      requires Valid()
      modifies this, svc
      ensures Valid() && latest == AfterAll(old(latest), events)
      ensures snapshot[..] == old(snapshot[..])
    {
      for i := 0 to |events|
        invariant Valid() && latest == AfterAll(old(latest), events[..i])
        invariant snapshot[..] == old(snapshot[..])
      {
        assert events[..i + 1][..i] == events[..i];
        Handle(events[i]);
      }
      assert events[..|events|] == events;
    }
  }

  lemma PrefixCancels(a: string, b: string)
    requires DocumentName(a) == DocumentName(b)
    ensures a == b
  {
    assert DocumentName(a)[|PREFIX|..] == a && DocumentName(b)[|PREFIX|..] == b;
  }

  /** An accepted document is its ConfigMap's backend's, so what it registered before is
      the backend just replaced. */
  lemma TiedRegister(fixed: seq<Backend>, latest: Latest, byName: map<string, Backend>, sources: map<string, Source>,
                     names: map<string, string>, problems: map<string, Problem>, m: string, d: Document)
    requires byName.Keys == sources.Keys && Tied(fixed, latest, byName, sources, names, problems)
    requires Accepted(fixed, m, d)
    ensures var load := LoadOf(m, d);
            Tied(fixed, latest[m := d], byName[load.b.name := load.b], sources[load.b.name := load.source],
                 names[m := load.b.name], problems - {m})
  {
    var load := LoadOf(m, d);
    var latest', byName', sources' := latest[m := d], byName[load.b.name := load.b], sources[load.b.name := load.source];
    forall n ensures TiedBackend(fixed, latest', byName', sources', n) {
      assert TiedBackend(fixed, latest, byName, sources, n);
      if DocumentName(n) == m { PrefixCancels(n, load.b.name); }
    }
  }

  /** What an event that registers nothing drops is the backend its ConfigMap registered. */
  lemma TiedForget(fixed: seq<Backend>, latest: Latest, byName: map<string, Backend>, sources: map<string, Source>,
                   names: map<string, string>, problems: map<string, Problem>, e: Event, problem: Problem)
    requires Coherent(fixed, byName, sources) && Tied(fixed, latest, byName, sources, names, problems)
    requires e.Upserted? ==> !Accepted(fixed, e.configMap, e.d) && problem == ProblemOf(e.configMap, e.d)
    requires e.Deleted? ==> problem.NoProblem?
    ensures var m := e.configMap;
            var name := if m in names then names[m] else "";
            var drops := name in sources && !sources[name].Static?;
            Tied(fixed, After(latest, e), if drops then byName - {name} else byName,
                 if drops then sources - {name} else sources, names - {m},
                 if problem.NoProblem? then problems - {m} else problems[m := problem])
  {
    var m := e.configMap;
    var name := if m in names then names[m] else "";
    DropsItsOwn(fixed, latest, byName, sources, names, m);
    if m in names {
      DroppedBackends(fixed, latest, byName, sources, names, e);
    } else {
      KeptBackends(fixed, latest, byName, sources, names, e);
    }
    assert TiedProblems(fixed, After(latest, e), if problem.NoProblem? then problems - {m} else problems[m := problem]);
  }

  lemma DroppedBackends(fixed: seq<Backend>, latest: Latest, byName: map<string, Backend>, sources: map<string, Source>,
                        names: map<string, string>, e: Event)
    requires Coherent(fixed, byName, sources) && TiedBackends(fixed, latest, byName, sources) && TiedNames(fixed, latest, names)
    requires (e.Upserted? ==> !Accepted(fixed, e.configMap, e.d)) && e.configMap in names
    requires var name := names[e.configMap]; e.configMap == DocumentName(name) && IsRegistered(fixed, latest, name) && !IsStatic(fixed, name)
    ensures var name := names[e.configMap]; TiedBackends(fixed, After(latest, e), byName - {name}, sources - {name})
  {
    var name := names[e.configMap];
    forall n ensures TiedBackend(fixed, After(latest, e), byName - {name}, sources - {name}, n) {
      assert TiedBackend(fixed, latest, byName, sources, n);
      if DocumentName(n) == e.configMap { PrefixCancels(n, name); }
    }
  }

  lemma KeptBackends(fixed: seq<Backend>, latest: Latest, byName: map<string, Backend>, sources: map<string, Source>,
                     names: map<string, string>, e: Event)
    requires byName.Keys == sources.Keys && TiedBackends(fixed, latest, byName, sources) && TiedNames(fixed, latest, names)
    requires (e.Upserted? ==> !Accepted(fixed, e.configMap, e.d)) && e.configMap !in names
    ensures TiedBackends(fixed, After(latest, e), byName, sources)
  {
    forall n ensures TiedBackend(fixed, After(latest, e), byName, sources, n) {
      assert TiedBackend(fixed, latest, byName, sources, n);
    }
  }

  /** A backend is dropped exactly when the ConfigMap had registered one. */
  lemma DropsItsOwn(fixed: seq<Backend>, latest: Latest, byName: map<string, Backend>, sources: map<string, Source>,
                    names: map<string, string>, m: string)
    requires Coherent(fixed, byName, sources) && TiedBackends(fixed, latest, byName, sources)
    requires TiedNames(fixed, latest, names)
    ensures var name := if m in names then names[m] else "";
            && (m in names <==> name in sources && !sources[name].Static?)
            && (m in names ==> m == DocumentName(name) && IsRegistered(fixed, latest, name) && !IsStatic(fixed, name))
  {
    var name := if m in names then names[m] else "";
    assert TiedBackend(fixed, latest, byName, sources, name);
    if IsRegistered(fixed, latest, name) {
      PrefixCancels(name, LoadOf(DocumentName(name), latest[DocumentName(name)]).b.name);
    }
  }

  /** The latest document of each ConfigMap decides: what came before it does not matter. */
  lemma {:induction false} LatestEventDecides(events: seq<Event>, configMap: string, i: nat)
    requires i < |events| && events[i].configMap == configMap
    requires forall j :: i < j < |events| ==> events[j].configMap != configMap
    ensures configMap in AfterAll(map[], events) <==> events[i].Upserted?
    ensures events[i].Upserted? ==> AfterAll(map[], events)[configMap] == events[i].d
    decreases |events|
  {
    if i < |events| - 1 { LatestEventDecides(events[..|events| - 1], configMap, i); }
  }

  /** The ordered list: the static backends in the operator's order, then the registered
      ones sorted by name, without duplicates; no other list is that. */
  lemma OrderIsDetermined(r: Registry, list: seq<Backend>)
    requires r.Valid()
    requires SortedByName(list)
    requires forall b :: b in list <==>
               IsRegistered(r.svc.staticBackends, r.latest, b.name) && b.name in r.svc.byName && r.svc.byName[b.name] == b
    ensures r.svc.backing[..r.svc.len] == r.svc.staticBackends + list
    ensures DistinctNames(r.svc.backing[..r.svc.len])
  {
    var s := r.svc;
    var mine := s.backing[s.fixedCount..s.len];
    forall b ensures b in mine <==> b in list {
      assert TiedBackend(s.staticBackends, r.latest, s.byName, s.sources, b.name);
    }
    SortedListsAgree(mine, list);
    assert s.backing[..s.len] == s.backing[..s.fixedCount] + mine;
    StaticAndRegisteredApart(s);
  }

  lemma StaticAndRegisteredApart(s: Service)
    requires s.Valid()
    ensures DistinctNames(s.backing[..s.len])
  {
    var all := s.backing[..s.len];
    forall i, j | 0 <= i < j < |all| ensures all[i].name != all[j].name {
      if j < s.fixedCount {
        assert all[i] == s.staticBackends[i] && all[j] == s.staticBackends[j];
      } else {
        assert all[j] == s.backing[s.fixedCount..s.len][j - s.fixedCount];
        assert all[j] in s.backing[s.fixedCount..s.len];
        if i < s.fixedCount {
          assert all[i] == s.staticBackends[i] && all[i] in s.staticBackends;
        } else {
          assert all[i] == s.backing[s.fixedCount..s.len][i - s.fixedCount];
          LessTrichotomy(all[i].name, all[j].name);
        }
      }
    }
  }

  lemma {:induction false} SortedListsAgree(a: seq<Backend>, b: seq<Backend>)
    requires SortedByName(a) && SortedByName(b) && forall x :: x in a <==> x in b
    ensures a == b
  {
    assert (a != [] ==> a[0] in b) && (b != [] ==> b[0] in a);
    if a != [] && b != [] {
      var i :| 0 <= i < |b| && b[i] == a[0];
      var j :| 0 <= j < |a| && a[j] == b[0];
      LessTrichotomy(a[0].name, b[0].name);
      forall x ensures x in a[1..] <==> x in b[1..] {
        LessTrichotomy(a[0].name, a[0].name);
        if x in a[1..] { var k :| 1 <= k < |a| && a[k] == x; assert Less(a[0].name, x.name) && x in b; }
        if x in b[1..] { var k :| 1 <= k < |b| && b[k] == x; assert Less(b[0].name, x.name) && x in a; }
      }
      SortedListsAgree(a[1..], b[1..]);
      assert a == [a[0]] + a[1..] && b == [b[0]] + b[1..];
    }
  }
}
