/** The cache index ConfigMap (internal/backend/kserve/index.go): recorders and
    forgetters of any number of drivers change one ConfigMap by read, mutate and a
    write conditional on what was read, at most three times. */
module CacheIndex {
  import opened Basics

  datatype Entry = Entry(model: string, revision: string, dir: string, preset: string,
                         claim: string, volume: string, recordedAt: nat)

  /** The decoded ConfigMap data: directory to record. */
  type Index = map<string, Entry>

  predicate Same(e: Entry, o: Entry) { e.(recordedAt := o.recordedAt) == o }

  datatype Location = Location(claim: string, volume: string, missing: bool, bound: bool)

  predicate BoundTo(e: Entry, loc: Location) { e.claim != "" && e.claim == loc.claim && e.volume == loc.volume }

  // ------------------------------------------------------------ the mutations

  datatype Mutation = Record(want: seq<Entry>, at: nat) | Forget(dirs: seq<string>)

  predicate Recorded(entries: Index, e: Entry) { e.dir in entries && Same(entries[e.dir], e) }

  function Put(entries: Index, e: Entry, at: nat): Index {
    if Recorded(entries, e) then entries else entries[e.dir := e.(recordedAt := at)]
  }

  function PutAll(entries: Index, want: seq<Entry>, at: nat): Index
    decreases |want|
  {
    if want == [] then entries else PutAll(Put(entries, want[0], at), want[1..], at)
  }

  predicate AnyPut(entries: Index, want: seq<Entry>, at: nat) {
    want != [] && (!Recorded(entries, want[0]) || AnyPut(entries, want[1..], at))
  }

  function Apply(m: Mutation, entries: Index): Index {
    match m
    case Record(want, at) => PutAll(entries, want, at)
    case Forget(dirs) => map d | d in entries && d !in dirs :: entries[d]
  }

  /** What mutate returns. */
  predicate Changes(m: Mutation, entries: Index) {
    match m
    case Record(want, at) => AnyPut(entries, want, at)
    case Forget(dirs) => exists d :: d in dirs && d in entries
  }

  lemma {:induction false} UnchangedPuts(entries: Index, want: seq<Entry>, at: nat)
    requires !AnyPut(entries, want, at)
    ensures PutAll(entries, want, at) == entries
  {
    if want != [] { UnchangedPuts(entries, want[1..], at); }
  }

  lemma UnchangedIsSame(m: Mutation, entries: Index)
    requires !Changes(m, entries)
    ensures Apply(m, entries) == entries
  {
    if m.Record? { UnchangedPuts(entries, m.want, m.at); }
  }

  lemma {:induction false} PutsStay(entries: Index, want: seq<Entry>, at: nat)
    ensures entries.Keys <= PutAll(entries, want, at).Keys
    ensures want != [] ==> PutAll(entries, want, at) != map[]
    decreases |want|
  {
    if want != [] {
      var next := Put(entries, want[0], at);
      assert want[0].dir in next;
      PutsStay(next, want[1..], at);
    }
  }

  /** The index says of e's directory what e does: its model, revision, preset, claim and volume. */
  ghost predicate Says(entries: Index, e: Entry) {
    && e.dir in entries
    && var s := entries[e.dir];
       && s.model == e.model && s.revision == e.revision && s.dir == e.dir && s.preset == e.preset
       && s.claim == e.claim && s.volume == e.volume
  }

  ghost predicate DistinctDirs(want: seq<Entry>) { forall i, j :: 0 <= i < j < |want| ==> want[i].dir != want[j].dir }

  lemma RecordedSays(entries: Index, e: Entry)
    ensures Recorded(entries, e) <==> Says(entries, e)
  {
  }

  /** Recorded, now unless it was already. */
  ghost predicate RecordsOne(start: Index, e: Entry, at: nat, after: Index) {
    Says(after, e) && after[e.dir].recordedAt == if Says(start, e) then start[e.dir].recordedAt else at
  }

  /** The records of distinct directories after a commit of want. */
  ghost predicate RecordsAll(start: Index, want: seq<Entry>, at: nat, after: Index) {
    && (forall i :: 0 <= i < |want| ==> RecordsOne(start, want[i], at, after))
    && (forall d :: (forall i :: 0 <= i < |want| ==> want[i].dir != d) ==> (d in after <==> d in start) && (d in after ==> after[d] == start[d]))
  }

  lemma {:induction false} PutsRecordAll(start: Index, want: seq<Entry>, at: nat)
    requires DistinctDirs(want)
    ensures RecordsAll(start, want, at, PutAll(start, want, at))
    ensures AnyPut(start, want, at) <==> exists i :: 0 <= i < |want| && !Says(start, want[i])
    decreases |want|
  {
    if want != [] {
      var e, rest := want[0], want[1..];
      var next := Put(start, e, at);
      assert forall i {:trigger rest[i]} :: 0 <= i < |rest| ==> rest[i] == want[i + 1] && rest[i].dir != e.dir;
      PutsRecordAll(next, rest, at);
      UntouchedPuts(next, rest, at, e.dir);
      RecordedSays(start, e);
      RecordedSays(next, e);
      RestRecordsAll(start, want, at, next, PutAll(start, want, at));
      SaidAhead(start, next, want);
      if !Recorded(start, e) { assert !Says(start, want[0]); }
    }
  }

  lemma SaidAhead(start: Index, next: Index, want: seq<Entry>)
    requires want != [] && DistinctDirs(want)
    requires forall d :: d != want[0].dir ==> (d in next <==> d in start) && (d in next ==> next[d] == start[d])
    ensures (exists i :: 0 <= i < |want| && !Says(start, want[i]))
       <==> !Says(start, want[0]) || exists i :: 0 <= i < |want[1..]| && !Says(next, want[1..][i])
  {
    var rest := want[1..];
    forall i | 0 <= i < |rest| ensures Says(next, rest[i]) <==> Says(start, want[i + 1]) { assert rest[i] == want[i + 1]; }
    if i :| 0 <= i < |want| && !Says(start, want[i]) { assert i == 0 || !Says(next, rest[i - 1]); }
  }

  lemma RestRecordsAll(start: Index, want: seq<Entry>, at: nat, next: Index, after: Index)
    requires want != [] && DistinctDirs(want) && next == Put(start, want[0], at)
    requires RecordsAll(next, want[1..], at, after)
    requires want[0].dir in next && want[0].dir in after && after[want[0].dir] == next[want[0].dir]
    ensures RecordsAll(start, want, at, after)
  {
    RecordedSays(start, want[0]);
    forall i | 0 <= i < |want| ensures RecordsOne(start, want[i], at, after) {
      if i > 0 {
        assert want[1..][i - 1] == want[i] && RecordsOne(next, want[1..][i - 1], at, after);
        assert Says(next, want[i]) <==> Says(start, want[i]);
      }
    }
    forall d | forall i :: 0 <= i < |want| ==> want[i].dir != d
      ensures (d in after <==> d in start) && (d in after ==> after[d] == start[d])
    {
      assert forall i {:trigger want[1..][i]} :: 0 <= i < |want[1..]| ==> want[1..][i] == want[i + 1];
    }
  }

  /** recordServed's mutate: the loop over what is wanted. */
  method MutateRecord(start: Index, want: seq<Entry>, at: nat) returns (entries: Index, changed: bool)
    ensures entries == Apply(Record(want, at), start) && (changed <==> Changes(Record(want, at), start))
    ensures DistinctDirs(want) ==>
              RecordsAll(start, want, at, entries) && (changed <==> exists i :: 0 <= i < |want| && !Says(start, want[i]))
  {
    if DistinctDirs(want) { PutsRecordAll(start, want, at); }
    entries := start;
    var recorded := 0;
    for i := 0 to |want|
      invariant PutAll(start, want, at) == PutAll(entries, want[i..], at)
      invariant recorded == 0 ==> entries == start && (AnyPut(start, want, at) <==> AnyPut(start, want[i..], at))
      invariant recorded > 0 ==> AnyPut(start, want, at)
    {
      assert want[i..][0] == want[i] && want[i..][1..] == want[i + 1..];
      if !Recorded(entries, want[i]) {
        entries := entries[want[i].dir := want[i].(recordedAt := at)];
        recorded := recorded + 1;
      }
    }
    changed := recorded > 0;
  }

  /** forgetDirs' mutate: delete each, and compare the sizes. */
  method MutateForget(start: Index, dirs: seq<string>) returns (entries: Index, changed: bool)
    ensures entries == Apply(Forget(dirs), start) && (changed <==> Changes(Forget(dirs), start))
  {
    entries := start;
    for i := 0 to |dirs|
      invariant entries == start - Dirs(dirs, i)
    {
      entries := entries - {dirs[i]};
    }
    changed := |entries| != |start|;
    Forgotten(start, dirs);
  }

  function Dirs(dirs: seq<string>, i: nat): set<string>
    requires i <= |dirs|
  {
    if i == 0 then {} else Dirs(dirs, i - 1) + {dirs[i - 1]}
  }

  lemma {:induction false} DirsAre(dirs: seq<string>, i: nat)
    requires i <= |dirs|
    ensures forall d :: d in Dirs(dirs, i) <==> d in dirs[..i]
  {
    if i > 0 {
      DirsAre(dirs, i - 1);
      assert dirs[..i] == dirs[..i - 1] + [dirs[i - 1]];
    }
  }

  lemma Forgotten(start: Index, dirs: seq<string>)
    ensures start - Dirs(dirs, |dirs|) == Apply(Forget(dirs), start)
    ensures |start - Dirs(dirs, |dirs|)| != |start| <==> Changes(Forget(dirs), start)
  {
    DirsAre(dirs, |dirs|);
    assert dirs[..|dirs|] == dirs;
    ForgottenIs(start, dirs, Dirs(dirs, |dirs|));
    SmallerWhenDropped(start, start - Dirs(dirs, |dirs|));
  }

  lemma ForgottenIs(start: Index, dirs: seq<string>, gone: set<string>)
    requires forall d :: d in gone <==> d in dirs
    ensures start - gone == Apply(Forget(dirs), start)
  {
  }

  lemma SmallerWhenDropped(a: Index, b: Index)
    requires b.Keys <= a.Keys && forall d :: d in b ==> b[d] == a[d]
    ensures |a| == |b| <==> a == b
  {
    if |a| == |b| {
      var gone := a.Keys - b.Keys;
      assert a.Keys == b.Keys + gone && |a.Keys| == |b.Keys| + |gone|;
      assert a.Keys == b.Keys;
    }
  }

  // ------------------------------------------------------------ the protocol

  datatype Stored = Stored(data: Index, version: nat)

  datatype Request = RecordServed(want: seq<Entry>) | ForgetDirs(dirs: seq<string>) | ReadIndex

  function MutationOf(r: Request, at: nat): Mutation {
    match r
    case RecordServed(want) => Record(want, at)
    case ForgetDirs(dirs) => Forget(dirs)
    case ReadIndex => Forget([])
  }

  /** m is what a call with request r mutates by, at the time of its write. */
  predicate Serves(m: Mutation, r: Request) { m == MutationOf(r, if m.Record? then m.at else 0) }

  /** Where a call stands: before its read, after it, about to set the driver's
      copy, or done. */
  datatype Pc = Ready(attempt: nat) | Fetched(attempt: nat, snap: Option<Stored>) | Setting(entries: Index) | Finished(ok: bool)

  /** since: how many commits there were when the call began. */
  datatype Call = Call(driver: nat, request: Request, pc: Pc, since: nat)

  /** A mutation as it was committed, and by which call. */
  datatype Commit = Commit(call: nat, m: Mutation)

  datatype State = State(cm: Option<Stored>, nextVersion: nat, calls: map<nat, Call>, memory: map<nat, Index>,
                         log: seq<Commit>, history: seq<Index>)

  function Content(cm: Option<Stored>): Index { if cm.None? then map[] else cm.value.data }

  const ATTEMPTS := 3

  datatype Action =
    | Begin(id: nat, driver: nat, request: Request)
    | Get(id: nat)
    | GetFails(id: nat)
    | Write(id: nat, at: nat)
    | WriteFails(id: nat, at: nat, applied: bool)   // a server error, the write landed or not
    | SetMemory(id: nat)

  datatype Outcome = NothingToWrite | Gone | Lands | Conflicts | Fails

  /** What the API server makes of the write of entries over snap. */
  function Judge(s: State, snap: Option<Stored>, m: Mutation): Outcome {
    var entries := Apply(m, Content(snap));
    if !Changes(m, Content(snap)) || (snap.None? && entries == map[]) then NothingToWrite
    else if entries == map[] then                     // delete, on the version read
      if s.cm.None? then Gone else if snap.Some? && s.cm.value.version == snap.value.version then Lands else Conflicts
    else if snap.None? then                           // create
      if s.cm.None? then Lands else Conflicts
    else                                              // update, on the version read
      if s.cm.None? then Fails else if s.cm.value.version == snap.value.version then Lands else Conflicts
  }

  function At(s: State, id: nat, pc: Pc): State
    requires id in s.calls
  {
    s.(calls := s.calls[id := s.calls[id].(pc := pc)])
  }

  function Committed(s: State, id: nat, m: Mutation, entries: Index): State {
    s.(cm := if entries == map[] then None else Some(Stored(entries, s.nextVersion)),
       nextVersion := s.nextVersion + 1,
       log := s.log + [Commit(id, m)],
       history := s.history + [entries])
  }

  /** One step; an action that does not apply changes nothing. */
  function Next(s: State, a: Action): State {
    match a
    case Begin(id, driver, request) =>
      if id in s.calls then s
      else s.(calls := s.calls[id := Call(driver, request, Ready(0), |s.log|)])
    case Get(id) =>
      if id !in s.calls || !s.calls[id].pc.Ready? then s
      else if s.calls[id].request.ReadIndex? then At(s, id, Setting(Content(s.cm)))
      else At(s, id, Fetched(s.calls[id].pc.attempt, s.cm))
    case GetFails(id) =>
      if id !in s.calls || !s.calls[id].pc.Ready? then s else At(s, id, Finished(false))
    case Write(id, at) =>
      if id !in s.calls || !s.calls[id].pc.Fetched? then s
      else
        var pc := s.calls[id].pc;
        var m := MutationOf(s.calls[id].request, at);
        var entries := Apply(m, Content(pc.snap));
        (match Judge(s, pc.snap, m)
         case NothingToWrite => At(s, id, Setting(entries))
         case Gone => At(s, id, Setting(entries))
         case Lands => At(Committed(s, id, m, entries), id, Setting(entries))
         case Conflicts => At(s, id, if pc.attempt + 1 < ATTEMPTS then Ready(pc.attempt + 1) else Finished(false))
         case Fails => At(s, id, Finished(false)))
    case WriteFails(id, at, applied) =>
      if id !in s.calls || !s.calls[id].pc.Fetched? then s
      else
        var pc := s.calls[id].pc;
        var m := MutationOf(s.calls[id].request, at);
        if applied && Judge(s, pc.snap, m) == Lands
        then At(Committed(s, id, m, Apply(m, Content(pc.snap))), id, Finished(false))
        else At(s, id, Finished(false))
    case SetMemory(id) =>
      if id !in s.calls || !s.calls[id].pc.Setting? then s
      else At(s.(memory := s.memory[s.calls[id].driver := s.calls[id].pc.entries]), id, Finished(true))
  }

  function Run(s: State, actions: seq<Action>): State
    decreases |actions|
  {
    if actions == [] then s else Next(Run(s, actions[..|actions| - 1]), actions[|actions| - 1])
  }

  /** A namespace with the index as some earlier process left it: with an entry, or absent. */
  function Init(data: Index): State {
    State(if data == map[] then None else Some(Stored(data, 0)), 1, map[], map[], [], [data])
  }

  function CommitsOf(log: seq<Commit>, id: nat): nat {
    if log == [] then 0
    else CommitsOf(log[..|log| - 1], id) + if log[|log| - 1].call == id then 1 else 0
  }

  /** The ConfigMap is the committed mutations applied one after another. */
  ghost predicate Serial(s: State) {
    && |s.history| == |s.log| + 1
    && (forall i :: 0 <= i < |s.log| ==> s.history[i + 1] == Apply(s.log[i].m, s.history[i]))
    && Content(s.cm) == s.history[|s.log|]
    && (s.cm.Some? ==> s.cm.value.data != map[])
  }

  /** The version read still stored is the data read still stored. */
  ghost predicate Versioned(s: State, snap: Option<Stored>) {
    snap.Some? ==> && snap.value.version < s.nextVersion
                   && (s.cm.Some? && s.cm.value.version == snap.value.version ==> s.cm == snap)
  }

  /** The ConfigMap held entries at some time since. */
  ghost predicate Held(s: State, since: nat, entries: Index) {
    exists i :: since <= i < |s.history| && s.history[i] == entries
  }

  /** The call's mutation changes nothing of what the ConfigMap held at some time since it began. */
  ghost predicate NothingToDo(s: State, c: Call) {
    exists i, at :: c.since <= i < |s.history| && Apply(MutationOf(c.request, at), s.history[i]) == s.history[i]
  }

  ghost predicate CallOk(s: State, id: nat)
    requires id in s.calls
  {
    var c := s.calls[id];
    && CommitsOf(s.log, id) <= 1 && c.since <= |s.log|
    && match c.pc
       case Ready(attempt) => attempt < ATTEMPTS && CommitsOf(s.log, id) == 0
       case Fetched(attempt, snap) =>
         && attempt < ATTEMPTS && CommitsOf(s.log, id) == 0
         && !c.request.ReadIndex? && Versioned(s, snap) && Held(s, c.since, Content(snap))
       case Setting(entries) =>
         && Held(s, c.since, entries)
         && (CommitsOf(s.log, id) == 0 ==> exists at :: Apply(MutationOf(c.request, at), entries) == entries)
       case Finished(ok) => ok && CommitsOf(s.log, id) == 0 ==> NothingToDo(s, c)
  }

  ghost predicate Inv(s: State) {
    && Serial(s)
    && (s.cm.Some? ==> s.cm.value.version < s.nextVersion)
    && (forall id :: id in s.calls ==> CallOk(s, id))
    && (forall d :: d in s.memory ==> s.memory[d] in s.history)
    && (forall i :: 0 <= i < |s.log| ==> s.log[i].call in s.calls)
  }

  /** Every commit is the mutation its call was made for. */
  ghost predicate Attributed(s: State) {
    forall i :: 0 <= i < |s.log| ==> s.log[i].call in s.calls && Serves(s.log[i].m, s.calls[s.log[i].call].request)
  }

  lemma StepAttributes(s: State, a: Action)
    requires Attributed(s)
    ensures Attributed(Next(s, a))
  {
    var s' := Next(s, a);
    RequestsStay(s, a);
    if s'.log != s.log {
      assert s'.log[..|s.log|] == s.log && |s'.log| == |s.log| + 1;
    }
  }

  lemma RequestsStay(s: State, a: Action)
    ensures forall id :: id in s.calls ==> id in Next(s, a).calls && Next(s, a).calls[id].request == s.calls[id].request
  {
  }

  lemma {:induction false} NoCommits(log: seq<Commit>, id: nat)
    requires forall i :: 0 <= i < |log| ==> log[i].call != id
    ensures CommitsOf(log, id) == 0
  {
    if log != [] { NoCommits(log[..|log| - 1], id); }
  }

  lemma CommitCounts(log: seq<Commit>, c: Commit, id: nat)
    ensures CommitsOf(log + [c], id) == CommitsOf(log, id) + if c.call == id then 1 else 0
  {
    assert (log + [c])[..|log|] == log;
  }

  /** A write that lands applies the mutation to what is stored now. */
  lemma LandsOnCurrent(s: State, snap: Option<Stored>, m: Mutation)
    requires Versioned(s, snap) && Judge(s, snap, m) == Lands
    ensures Content(snap) == Content(s.cm)
  {
  }

  lemma CommitKeeps(s: State, id: nat, m: Mutation, pc: Pc)
    requires Inv(s) && id in s.calls && s.calls[id].pc.Fetched?
    requires Judge(s, s.calls[id].pc.snap, m) == Lands
    requires pc == Finished(false) || pc == Setting(Apply(m, Content(s.cm)))
    ensures Inv(At(Committed(s, id, m, Apply(m, Content(s.cm))), id, pc))
  {
    var entries := Apply(m, Content(s.cm));
    var s' := At(Committed(s, id, m, entries), id, pc);
    CommitStaysSerial(s, id, m, entries);
    assert forall h :: h in s.history ==> h in s'.history;
    forall x | x in s'.calls ensures CallOk(s', x) {
      assert CallOk(s, x);
      if x == id { OwnCommit(s, id, m, entries, pc); } else { OthersCommit(s, id, m, entries, pc, x); }
    }
  }

  lemma OwnCommit(s: State, id: nat, m: Mutation, entries: Index, pc: Pc)
    requires Serial(s) && id in s.calls && CallOk(s, id) && s.calls[id].pc.Fetched? && entries == Apply(m, Content(s.cm))
    requires pc == Finished(false) || pc == Setting(entries)
    ensures CallOk(At(Committed(s, id, m, entries), id, pc), id)
  {
    var s' := Committed(s, id, m, entries);
    CommitCounts(s.log, Commit(id, m), id);
    assert s'.history[|s.log| + 1] == entries && Held(s', s.calls[id].since, entries);
  }

  lemma OthersCommit(s: State, id: nat, m: Mutation, entries: Index, pc: Pc, x: nat)
    requires id in s.calls && x in s.calls && x != id && CallOk(s, x)
    ensures CallOk(At(Committed(s, id, m, entries), id, pc), x)
  {
    CommitCounts(s.log, Commit(id, m), x);
    HeldStays(s, Committed(s, id, m, entries), s.calls[x]);
  }

  lemma HeldStays(s: State, s': State, c: Call)
    requires s.history <= s'.history
    ensures forall entries :: Held(s, c.since, entries) ==> Held(s', c.since, entries)
    ensures NothingToDo(s, c) ==> NothingToDo(s', c)
  {
    assert forall i :: 0 <= i < |s.history| ==> s'.history[i] == s.history[i];
  }

  lemma CommitStaysSerial(s: State, id: nat, m: Mutation, entries: Index)
    requires Serial(s) && entries == Apply(m, Content(s.cm))
    ensures Serial(Committed(s, id, m, entries)) && entries in Committed(s, id, m, entries).history
  {
    var s' := Committed(s, id, m, entries);
    assert s'.history[|s.log| + 1] == entries;
  }

  lemma MoveKeeps(s: State, id: nat, pc: Pc)
    requires Inv(s) && id in s.calls && CallOk(At(s, id, pc), id)
    ensures Inv(At(s, id, pc))
  {
    var s' := At(s, id, pc);
    forall x | x in s'.calls ensures CallOk(s', x) {
      if x != id { assert CallOk(s, x); }
    }
  }

  /** A ConfigMap that is gone when its last entry was to go holds what the call wanted. */
  lemma GoneIsDone(s: State, snap: Option<Stored>, r: Request, at: nat)
    requires Judge(s, snap, MutationOf(r, at)) == Gone
    ensures Apply(MutationOf(r, at), Content(snap)) == map[] && Content(s.cm) == map[]
    ensures Apply(MutationOf(r, at), map[]) == map[]
  {
    if r.RecordServed? { PutsStay(Content(snap), r.want, at); }
  }

  lemma FailKeeps(s: State, id: nat, at: nat, applied: bool)
    requires Inv(s) && id in s.calls && s.calls[id].pc.Fetched?
    ensures Inv(Next(s, WriteFails(id, at, applied)))
  {
    var c := s.calls[id];
    var m := MutationOf(c.request, at);
    assert CallOk(s, id);
    if applied && Judge(s, c.pc.snap, m) == Lands {
      LandsOnCurrent(s, c.pc.snap, m);
      CommitKeeps(s, id, m, Finished(false));
    } else {
      MoveKeeps(s, id, Finished(false));
    }
  }

  lemma WriteKeeps(s: State, id: nat, at: nat)
    requires Inv(s) && id in s.calls && s.calls[id].pc.Fetched?
    ensures Inv(Next(s, Write(id, at)))
  {
    var c := s.calls[id];
    var snap := c.pc.snap;
    var m := MutationOf(c.request, at);
    assert CallOk(s, id);
    match Judge(s, snap, m)
    case NothingToWrite =>
      if !Changes(m, Content(snap)) { UnchangedIsSame(m, Content(snap)); }
      SettleKeeps(s, id, at, Content(snap));
    case Gone =>
      GoneIsDone(s, snap, c.request, at);
      assert s.history[|s.log|] == map[] && Held(s, c.since, map[]);
      SettleKeeps(s, id, at, map[]);
    case Lands =>
      LandsOnCurrent(s, snap, m);
      CommitKeeps(s, id, m, Setting(Apply(m, Content(s.cm))));
    case Conflicts =>
      MoveKeeps(s, id, if c.pc.attempt + 1 < ATTEMPTS then Ready(c.pc.attempt + 1) else Finished(false));
    case Fails =>
      MoveKeeps(s, id, Finished(false));
  }

  /** Ending without a commit, on a content the mutation leaves as it is. */
  lemma SettleKeeps(s: State, id: nat, at: nat, entries: Index)
    requires Inv(s) && id in s.calls && s.calls[id].pc.Fetched? && Held(s, s.calls[id].since, entries)
    requires Apply(MutationOf(s.calls[id].request, at), entries) == entries
    ensures Inv(At(s, id, Setting(entries)))
  {
    assert CallOk(s, id);
    MoveKeeps(s, id, Setting(entries));
  }

  lemma StepKeeps(s: State, a: Action)
    requires Inv(s)
    ensures Inv(Next(s, a))
  {
    match a
    case Begin(id, driver, request) =>
      if id !in s.calls {
        NoCommits(s.log, id);
        var s' := Next(s, a);
        forall x | x in s'.calls ensures CallOk(s', x) {
          if x != id { assert CallOk(s, x); }
        }
      }
    case Get(id) =>
      if id in s.calls && s.calls[id].pc.Ready? {
        assert CallOk(s, id);
        assert s.history[|s.log|] == Content(s.cm) && Held(s, s.calls[id].since, Content(s.cm));
        if s.calls[id].request.ReadIndex? {
          assert Apply(MutationOf(ReadIndex, 0), Content(s.cm)) == Content(s.cm);
          MoveKeeps(s, id, Setting(Content(s.cm)));
        } else {
          MoveKeeps(s, id, Fetched(s.calls[id].pc.attempt, s.cm));
        }
      }
    case GetFails(id) =>
      if id in s.calls && s.calls[id].pc.Ready? {
        assert CallOk(s, id);
        MoveKeeps(s, id, Finished(false));
      }
    case Write(id, at) => if id in s.calls && s.calls[id].pc.Fetched? { WriteKeeps(s, id, at); }
    case WriteFails(id, at, applied) => if id in s.calls && s.calls[id].pc.Fetched? { FailKeeps(s, id, at, applied); }
    case SetMemory(id) =>
      if id in s.calls && s.calls[id].pc.Setting? {
        assert CallOk(s, id);
        MoveKeeps(s, id, Finished(true));
        var s' := Next(s, a);
        forall x | x in s'.calls ensures CallOk(s', x) {
          assert CallOk(At(s, id, Finished(true)), x);
        }
      }
  }

  /** Over every interleaving: no lost update, each call commits at most once, one that ends
      well without a commit had nothing to change of what the ConfigMap held meanwhile, the
      ConfigMap exists exactly when it has an entry, and every driver's copy is a
      state the ConfigMap once held. */
  lemma {:induction false} EveryRun(data: Index, actions: seq<Action>)
    ensures Inv(Run(Init(data), actions)) && Attributed(Run(Init(data), actions))
    decreases |actions|
  {
    if actions == [] {
      assert Init(data).history[0] == data;
    } else {
      EveryRun(data, actions[..|actions| - 1]);
      StepKeeps(Run(Init(data), actions[..|actions| - 1]), actions[|actions| - 1]);
      StepAttributes(Run(Init(data), actions[..|actions| - 1]), actions[|actions| - 1]);
    }
  }

  /** What EveryRun says to a caller, without the bookkeeping. */
  lemma SerialRuns(data: Index, actions: seq<Action>)
    ensures var s := Run(Init(data), actions);
            && Content(s.cm) == Replay(data, s.log)
            && (s.cm.Some? <==> Replay(data, s.log) != map[])
            && (forall id :: id in s.calls ==> CommitsOf(s.log, id) <= 1)
            && (forall id :: id in s.calls && s.calls[id].pc == Finished(true) && CommitsOf(s.log, id) == 0 ==>
                  exists i, at :: s.calls[id].since <= i <= |s.log|
                    && Apply(MutationOf(s.calls[id].request, at), Replay(data, s.log[..i])) == Replay(data, s.log[..i]))
            && (forall i :: 0 <= i < |s.log| ==> s.log[i].call in s.calls && Serves(s.log[i].m, s.calls[s.log[i].call].request))
            && (forall d :: d in s.memory ==> exists i :: 0 <= i <= |s.log| && s.memory[d] == Replay(data, s.log[..i]))
  {
    var s := Run(Init(data), actions);
    EveryRun(data, actions);
    FirstHistory(data, actions);
    forall i | 0 <= i <= |s.log| ensures s.history[i] == Replay(data, s.log[..i]) {
      HistoryReplays(s, data, i);
    }
    assert s.log[..|s.log|] == s.log;
    forall id | id in s.calls ensures CommitsOf(s.log, id) <= 1 { assert CallOk(s, id); }
    forall id | id in s.calls && s.calls[id].pc == Finished(true) && CommitsOf(s.log, id) == 0
      ensures exists i, at :: s.calls[id].since <= i <= |s.log|
                && Apply(MutationOf(s.calls[id].request, at), Replay(data, s.log[..i])) == Replay(data, s.log[..i])
    {
      assert CallOk(s, id);
      var i, at :| s.calls[id].since <= i < |s.history| && Apply(MutationOf(s.calls[id].request, at), s.history[i]) == s.history[i];
      assert s.history[i] == Replay(data, s.log[..i]);
    }
  }

  function Replay(data: Index, log: seq<Commit>): Index
    decreases |log|
  {
    if log == [] then data else Apply(log[|log| - 1].m, Replay(data, log[..|log| - 1]))
  }

  lemma {:induction false} FirstHistory(data: Index, actions: seq<Action>)
    ensures Run(Init(data), actions).history != [] && Run(Init(data), actions).history[0] == data
    decreases |actions|
  {
    if actions != [] {
      FirstHistory(data, actions[..|actions| - 1]);
      HistoryGrows(Run(Init(data), actions[..|actions| - 1]), actions[|actions| - 1]);
    }
  }

  lemma HistoryGrows(s: State, a: Action)
    ensures s.history <= Next(s, a).history
  {
  }

  lemma {:induction false} HistoryReplays(s: State, data: Index, i: nat)
    requires Serial(s) && s.history[0] == data && i <= |s.log|
    ensures s.history[i] == Replay(data, s.log[..i])
  {
    if i > 0 {
      HistoryReplays(s, data, i - 1);
      assert s.log[..i][..i - 1] == s.log[..i - 1];
    }
  }

  // ------------------------------------------------------------ calls get through

  /** A call no other writes beside commits its mutation, if it changes anything, and leaves its
      driver's copy as the ConfigMap is. */
  lemma AloneGetsThrough(s: State, id: nat, driver: nat, r: Request, at: nat)
    requires Inv(s) && id !in s.calls && !r.ReadIndex?
    ensures var after := Run(s, [Begin(id, driver, r), Get(id), Write(id, at), SetMemory(id)]);
            && Content(after.cm) == Apply(MutationOf(r, at), Content(s.cm))
            && id in after.calls && after.calls[id].pc == Finished(true) && driver in after.memory && after.memory[driver] == Content(after.cm)
            && (Content(after.cm) != Content(s.cm) ==> after.log == s.log + [Commit(id, MutationOf(r, at))])
  {
    var began := Next(s, Begin(id, driver, r));
    var fetched := Next(began, Get(id));
    var wrote := Next(fetched, Write(id, at));
    RunsOn(s, [Begin(id, driver, r)], Get(id));
    RunsOn(s, [Begin(id, driver, r)] + [Get(id)], Write(id, at));
    RunsOn(s, [Begin(id, driver, r)] + [Get(id)] + [Write(id, at)], SetMemory(id));
    assert Run(s, [Begin(id, driver, r)]) == Next(Run(s, []), Begin(id, driver, r));
    assert [Begin(id, driver, r)] + [Get(id)] + [Write(id, at)] + [SetMemory(id)]
           == [Begin(id, driver, r), Get(id), Write(id, at), SetMemory(id)];
    var m := MutationOf(r, at);
    if !Changes(m, Content(s.cm)) { UnchangedIsSame(m, Content(s.cm)); }
    WroteAlone(fetched, id, at, s.cm);
  }

  lemma RunsOn(s: State, actions: seq<Action>, a: Action)
    ensures Run(s, actions + [a]) == Next(Run(s, actions), a)
  {
    assert (actions + [a])[..|actions|] == actions;
  }

  lemma WroteAlone(s: State, id: nat, at: nat, cm: Option<Stored>)
    requires id in s.calls && s.calls[id].pc == Fetched(0, cm) && s.cm == cm && (cm.Some? ==> cm.value.data != map[])
    ensures var m, after := MutationOf(s.calls[id].request, at), Next(s, Write(id, at));
            && id in after.calls && after.calls[id] == s.calls[id].(pc := Setting(Content(after.cm)))
            && Content(after.cm) == Apply(m, Content(cm)) && after.memory == s.memory
            && (Content(after.cm) != Content(cm) ==> after.log == s.log + [Commit(id, m)])
  {
    var m := MutationOf(s.calls[id].request, at);
    if !Changes(m, Content(cm)) { UnchangedIsSame(m, Content(cm)); }
    if m.Record? && m.want != [] { PutsStay(Content(cm), m.want, m.at); }
  }

  /** A write meets a conflict when the ConfigMap was written since it was read. Two are borne, the
      third ends the call; a call whose read fails ends too. */
  lemma ThreeAttempts(s: State, id: nat, at: nat)
    requires Inv(s) && id in s.calls && s.calls[id].pc.Fetched?
    ensures s.calls[id].pc.attempt < 3
    ensures Judge(s, s.calls[id].pc.snap, MutationOf(s.calls[id].request, at)) == Conflicts ==>
              Next(s, Write(id, at)).calls[id].pc
                == if s.calls[id].pc.attempt < 2 then Ready(s.calls[id].pc.attempt + 1) else Finished(false)
    ensures forall x, d, r :: x !in s.calls ==> Next(s, Begin(x, d, r)).calls == s.calls[x := Call(d, r, Ready(0), |s.log|)]
    ensures forall x :: x in s.calls && s.calls[x].pc.Ready? ==>
              Next(s, GetFails(x)) == s.(calls := s.calls[x := s.calls[x].(pc := Finished(false))])
    ensures forall x :: x in s.calls && !s.calls[x].pc.Ready? ==> Next(s, GetFails(x)) == s
  {
    assert CallOk(s, id);
  }

  // ------------------------------------------------------------ what stays recorded

  predicate Touches(m: Mutation, dir: string) {
    match m
    case Record(want, _) => exists i :: 0 <= i < |want| && want[i].dir == dir
    case Forget(dirs) => dir in dirs
  }

  lemma {:induction false} UntouchedPuts(entries: Index, want: seq<Entry>, at: nat, dir: string)
    requires forall i :: 0 <= i < |want| ==> want[i].dir != dir
    ensures var after := PutAll(entries, want, at);
            (dir in after <==> dir in entries) && (dir in after ==> after[dir] == entries[dir])
    decreases |want|
  {
    if want != [] {
      assert forall i {:trigger want[1..][i]} :: 0 <= i < |want[1..]| ==> want[1..][i] == want[i + 1];
      UntouchedPuts(Put(entries, want[0], at), want[1..], at, dir);
    }
  }

  lemma {:induction false} RecordedAfter(entries: Index, want: seq<Entry>, at: nat, i: nat)
    requires i < |want| && forall j :: i < j < |want| ==> want[j].dir != want[i].dir
    ensures Recorded(PutAll(entries, want, at), want[i])
    decreases |want|
  {
    var next := Put(entries, want[0], at);
    if i == 0 {
      assert forall j {:trigger want[1..][j]} :: 0 <= j < |want[1..]| ==> want[1..][j] == want[j + 1];
      UntouchedPuts(next, want[1..], at, want[0].dir);
    } else {
      assert forall j {:trigger want[1..][j]} :: 0 <= j < |want[1..]| ==> want[1..][j] == want[j + 1];
      RecordedAfter(next, want[1..], at, i - 1);
    }
  }

  /** The one entry want holds for dir. */
  ghost predicate OnlyFor(e: Entry, want: seq<Entry>, dir: string) {
    e in want && e.dir == dir && forall f :: f in want && f.dir == dir ==> f == e
  }

  /** The last commit to touch a directory decides: what it recorded is what the index
      says at the end, what it forgot is not in the index, whatever ran in between. */
  lemma LastCommitDecides(data: Index, actions: seq<Action>, i: nat, dir: string)
    requires i < |Run(Init(data), actions).log|
    requires forall j :: i < j < |Run(Init(data), actions).log| ==> !Touches(Run(Init(data), actions).log[j].m, dir)
    ensures var s := Run(Init(data), actions);
            && (s.log[i].m.Forget? && Touches(s.log[i].m, dir) ==> dir !in Content(s.cm))
            && (s.log[i].m.Record? ==> forall e :: OnlyFor(e, s.log[i].m.want, dir) ==> Says(Content(s.cm), e))
  {
    var s := Run(Init(data), actions);
    EveryRun(data, actions);
    Persists(s, i + 1, |s.log|, dir);
    if s.log[i].m.Record? {
      forall e | OnlyFor(e, s.log[i].m.want, dir) ensures Says(Content(s.cm), e) {
        WantedIsRecorded(s.history[i], s.log[i].m.want, s.log[i].m.at, e);
        RecordedSays(Content(s.cm), e);
      }
    }
  }

  lemma {:induction false} WantedIsRecorded(entries: Index, want: seq<Entry>, at: nat, e: Entry)
    requires e in want && forall f :: f in want && f.dir == e.dir ==> f == e
    ensures Recorded(PutAll(entries, want, at), e)
    decreases |want|
  {
    if e in want[1..] {
      WantedIsRecorded(Put(entries, want[0], at), want[1..], at, e);
    } else {
      RecordedAfter(entries, want, at, 0);
    }
  }

  lemma {:induction false} Persists(s: State, i: nat, j: nat, dir: string)
    requires Serial(s) && i <= j <= |s.log|
    requires forall l :: i <= l < j ==> !Touches(s.log[l].m, dir)
    ensures dir in s.history[j] <==> dir in s.history[i]
    ensures dir in s.history[j] ==> s.history[j][dir] == s.history[i][dir]
  {
    if i < j {
      Persists(s, i, j - 1, dir);
      var m := s.log[j - 1].m;
      if m.Record? { UntouchedPuts(s.history[j - 1], m.want, m.at, dir); }
    }
  }

  // ------------------------------------------------------------ record and unload

  /** A served object as the index reads it: repository is empty for anything but an
      hf:// URI of a repository. */
  datatype Served = Served(name: string, repository: string, revision: string, presetLabelled: bool, preset: string)

  function EntryFor(sv: Served): Entry {
    Entry(sv.repository, sv.revision, sv.name, if sv.presetLabelled then sv.preset else "", "", "", 0)
  }

  /** What recordServed wants written, bound to the cache of the moment. */
  function Wanted(list: seq<Served>, cacheEnabled: bool, loc: Location): seq<Entry> {
    if list == [] || !cacheEnabled || loc.missing || !loc.bound then []
    else (if list[0].repository == "" then [] else [EntryFor(list[0]).(claim := loc.claim, volume := loc.volume)])
         + Wanted(list[1..], cacheEnabled, loc)
  }

  /** The entries forgetStale drops for the objects just deleted. */
  function Stale(stored: Index, deleted: seq<Served>, cacheEnabled: bool, loc: Location): seq<string> {
    if deleted == [] then []
    else
      var live := cacheEnabled && !loc.missing && loc.bound;
      (if deleted[0].name in stored && (!live || !BoundTo(stored[deleted[0].name], loc)) then [stored[deleted[0].name].dir] else [])
      + Stale(stored, deleted[1..], cacheEnabled, loc)
  }

  lemma {:induction false} WantedEntry(list: seq<Served>, loc: Location, sv: Served)
    requires sv in list && sv.repository != "" && !loc.missing && loc.bound
    ensures EntryFor(sv).(claim := loc.claim, volume := loc.volume) in Wanted(list, true, loc)
    ensures forall e :: e in Wanted(list, true, loc) ==>
              exists x :: x in list && x.repository != "" && e == EntryFor(x).(claim := loc.claim, volume := loc.volume)
  {
    WantedFrom(list, loc);
    if sv in list[1..] { WantedEntry(list[1..], loc, sv); }
  }

  lemma {:induction false} WantedFrom(list: seq<Served>, loc: Location)
    requires !loc.missing && loc.bound
    ensures forall e :: e in Wanted(list, true, loc) ==>
              exists x :: x in list && x.repository != "" && e == EntryFor(x).(claim := loc.claim, volume := loc.volume)
  {
    if list != [] { WantedFrom(list[1..], loc); }
  }

  /** What is recorded of a served object: its repository, revision and preset label, bound to the
      claim and volume of the moment; and nothing without a bound cache. */
  lemma ServedIsRecorded(entries: Index, list: seq<Served>, enabled: bool, loc: Location, at: nat, sv: Served)
    requires sv in list && forall x :: x in list && x.name == sv.name ==> x == sv
    ensures var after := Apply(Record(Wanted(list, enabled, loc), at), entries);
            && (enabled && !loc.missing && loc.bound && sv.repository != "" ==>
                  && sv.name in after && after[sv.name].dir == sv.name
                  && after[sv.name].model == sv.repository && after[sv.name].revision == sv.revision
                  && after[sv.name].preset == (if sv.presetLabelled then sv.preset else "")
                  && after[sv.name].claim == loc.claim && after[sv.name].volume == loc.volume)
            && (!enabled || loc.missing || !loc.bound || sv.repository == "" ==>
                  (sv.name in after <==> sv.name in entries) && (sv.name in after ==> after[sv.name] == entries[sv.name]))
  {
    var want := Wanted(list, enabled, loc);
    if enabled && !loc.missing && loc.bound {
      WantedFrom(list, loc);
      if sv.repository != "" {
        var e := EntryFor(sv).(claim := loc.claim, volume := loc.volume);
        WantedEntry(list, loc, sv);
        WantedIsRecorded(entries, want, at, e);
      } else {
        assert forall i :: 0 <= i < |want| ==> want[i] in want && want[i].dir != sv.name;
        UntouchedPuts(entries, want, at, sv.name);
      }
    }
  }

  /** A directory recorded while its object was served outlives the object's unload
      exactly when the unload sees the same claim and volume, mounted and bound; one recorded
      where the cache has no claim never does. */
  lemma UnloadKeepsTheCache(entries: Index, list: seq<Served>, loc: Location, at: nat, sv: Served, enabled: bool, later: Location)
    requires sv in list && sv.repository != "" && !loc.missing && loc.bound
    requires forall x :: x in list && x.name == sv.name ==> x == sv
    ensures var stored := Apply(Record(Wanted(list, true, loc), at), entries);
            sv.name in Apply(Forget(Stale(stored, [sv], enabled, later)), stored) <==>
            enabled && !later.missing && later.bound && later.claim == loc.claim != "" && later.volume == loc.volume
  {
    var e := EntryFor(sv).(claim := loc.claim, volume := loc.volume);
    var want := Wanted(list, true, loc);
    WantedEntry(list, loc, sv);
    WantedIsRecorded(entries, want, at, e);
    var stored := Apply(Record(want, at), entries);
    assert stored[sv.name].dir == sv.name;
    assert Stale(stored, [sv][1..], enabled, later) == [];
  }
}
