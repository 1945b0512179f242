/** The job table (internal/jobs/manager.go): background runs with progress, one
    unfinished job per type, backend and model, cancelled, awaited and pruned. */
module Jobs {
  import opened Basics

  datatype Phase = Pending | Running | Succeeded | Failed | Cancelled
  datatype Kind = Pull | Load

  datatype Job = Job(id: string, kind: Kind, backend: string, model: string, phase: Phase, status: string,
                     completed: int, total: int, percent: real, node: string, preset: string,
                     created: int, started: Option<int>, finished: Option<int>)

  datatype Request = Request(kind: Kind, backend: string, model: string, node: string, preset: string)

  datatype Progress = Progress(status: string, completed: int, total: int, node: string, preset: string)

  /** What the operation returned: a result, context.Canceled, or another error. */
  datatype Result = Ok | CanceledError | OtherError

  type Table = map<string, Job>

  predicate Done(j: Job) { j.phase.Succeeded? || j.phase.Failed? || j.phase.Cancelled? }

  predicate SameWork(j: Job, r: Request) { j.kind == r.kind && j.backend == r.backend && j.model == r.model }

  function NewJob(r: Request, id: string, now: int): Job {
    Job(id, r.kind, r.backend, r.model, Pending, "", 0, 0, 0.0, r.node, r.preset, now, None, None)
  }

  function Begun(j: Job, now: int): Job { j.(phase := Running, started := Some(now)) }

  function Percent(completed: int, total: int): real
    requires total > 0
  {
    var p := completed as real / total as real * 100.0;
    if p > 100.0 then 100.0 else p
  }

  /** One report of progress. */
  function Reported(j: Job, p: Progress): Job {
    var k := j.(status := if p.status != "" then p.status else j.status,
                total := if p.total > 0 then p.total else j.total,
                completed := if p.completed > j.completed then p.completed else j.completed,
                node := if p.node != "" then p.node else j.node,
                preset := if p.preset != "" then p.preset else j.preset);
    if k.total > 0 then k.(percent := Percent(k.completed, k.total)) else k
  }

  /** What one report makes of a job: the bytes and the total reported when they say more, the
      percentage they make, at most 100. */
  lemma ReportedSays(j: Job, p: Progress)
    ensures var k := Reported(j, p);
            && k.completed >= p.completed && k.completed >= j.completed && (k.completed == p.completed || k.completed == j.completed)
            && (p.total > 0 ==> k.total == p.total) && (p.total <= 0 ==> k.total == j.total)
            && (p.status != "" ==> k.status == p.status) && (p.status == "" ==> k.status == j.status)
            && (p.node != "" ==> k.node == p.node) && (p.node == "" ==> k.node == j.node)
            && (p.preset != "" ==> k.preset == p.preset) && (p.preset == "" ==> k.preset == j.preset)
            && (k.total > 0 && k.completed >= k.total ==> k.percent == 100.0)
            && (k.total > 0 && k.completed < k.total ==> k.percent * k.total as real == k.completed as real * 100.0)
            && (k.total <= 0 ==> k.percent == j.percent)
            && (k.id, k.kind, k.backend, k.model, k.phase) == (j.id, j.kind, j.backend, j.model, j.phase)
            && (k.created, k.started, k.finished) == (j.created, j.started, j.finished)
  {
    var k := Reported(j, p);
    if k.total > 0 { PercentIs(k.completed, k.total); }
  }

  lemma PercentIs(completed: int, total: int)
    requires total > 0
    ensures completed >= total ==> Percent(completed, total) == 100.0
    ensures completed < total ==> Percent(completed, total) * total as real == completed as real * 100.0
  {
    var share := completed as real / total as real;
    assert share * total as real == completed as real;
    if completed >= total { assert share >= 1.0; } else { assert share < 1.0; }
  }

  /** The last update of a run: cancelled only when the error says so and the job was. */
  function Ended(j: Job, r: Result, cancelled: bool, now: int): Job {
    if r.CanceledError? && cancelled then j.(phase := Cancelled, finished := Some(now))
    else if !r.Ok? then j.(phase := Failed, finished := Some(now))
    else j.(phase := Succeeded, finished := Some(now), percent := 100.0,
            completed := if j.total > 0 then j.total else j.completed)
  }

  // ------------------------------------------------------------ pruning

  predicate IsFinished(j: Job) { Done(j) && j.finished.Some? }

  /** The finished jobs inside the retention window. */
  function Recent(t: Table, cutoff: int): set<string> {
    set id | id in t && IsFinished(t[id]) && t[id].finished.value >= cutoff
  }

  /** What a prune may leave of t: every unfinished job, and of the finished ones
      inside retention the at most max most recently finished. */
  ghost predicate Pruned(t: Table, t': Table, cutoff: int, max: nat) {
    && (forall id :: id in t' ==> id in t && t'[id] == t[id])
    && (forall id :: id in t && !IsFinished(t[id]) ==> id in t')
    && (forall id :: id in t' && IsFinished(t'[id]) ==> id in Recent(t, cutoff))
    && |Recent(t', cutoff)| == (if |Recent(t, cutoff)| <= max then |Recent(t, cutoff)| else max)
    && (forall gone, kept :: gone in Recent(t, cutoff) && gone !in t' && kept in Recent(t', cutoff) ==>
          t[gone].finished.value <= t[kept].finished.value)
  }

  function FinishOf(t: Table, id: string): int { if id in t && t[id].finished.Some? then t[id].finished.value else 0 }

  /** s is in the order the jobs finished. */
  ghost predicate SortedByFinish(t: Table, s: seq<string>) {
    forall i, j :: 0 <= i < j < |s| ==> FinishOf(t, s[i]) <= FinishOf(t, s[j])
  }

  /** Puts id where it belongs. */
  method InsertByFinish(t: Table, s: seq<string>, id: string) returns (r: seq<string>)
    requires SortedByFinish(t, s) && Distinct(s) && id !in s
    ensures SortedByFinish(t, r) && Distinct(r) && forall x :: x in r <==> x == id || x in s
  {
    var i := |s|;
    while i > 0 && FinishOf(t, s[i - 1]) > FinishOf(t, id)
      invariant 0 <= i <= |s|
      invariant forall j :: i <= j < |s| ==> FinishOf(t, s[j]) > FinishOf(t, id)
    {
      i := i - 1;
    }
    r := s[..i] + [id] + s[i..];
    Spliced(t, s, i, id);
  }

  /** s with id put in at place i, told by index. */
  ghost predicate Splice(s: seq<string>, i: nat, id: string, r: seq<string>) {
    && i <= |s| && |r| == |s| + 1
    && forall j {:trigger r[j]} :: 0 <= j < |r| ==> r[j] == if j < i then s[j] else if j == i then id else s[j - 1]
  }

  lemma Spliced(t: Table, s: seq<string>, i: nat, id: string)
    requires SortedByFinish(t, s) && Distinct(s) && id !in s && i <= |s|
    requires forall j :: i <= j < |s| ==> FinishOf(t, s[j]) > FinishOf(t, id)
    requires i > 0 ==> FinishOf(t, s[i - 1]) <= FinishOf(t, id)
    ensures var r := s[..i] + [id] + s[i..];
            SortedByFinish(t, r) && Distinct(r) && forall x :: x in r <==> x == id || x in s
  {
    var r := s[..i] + [id] + s[i..];
    assert Splice(s, i, id, r);
    SplicedSorted(t, s, i, id, r);
    SplicedMembers(s, i, id, r);
  }

  lemma SplicedSorted(t: Table, s: seq<string>, i: nat, id: string, r: seq<string>)
    requires Splice(s, i, id, r) && SortedByFinish(t, s)
    requires forall j :: i <= j < |s| ==> FinishOf(t, s[j]) > FinishOf(t, id)
    requires i > 0 ==> FinishOf(t, s[i - 1]) <= FinishOf(t, id)
    ensures SortedByFinish(t, r)
  {
    forall x, y | 0 <= x < y < |r| ensures FinishOf(t, r[x]) <= FinishOf(t, r[y]) {
      if x < i && i <= y { assert FinishOf(t, s[x]) <= FinishOf(t, s[i - 1]); }
    }
  }

  lemma SplicedMembers(s: seq<string>, i: nat, id: string, r: seq<string>)
    requires Splice(s, i, id, r) && Distinct(s) && id !in s
    ensures Distinct(r) && forall x :: x in r <==> x == id || x in s
  {
    assert forall j :: 0 <= j < |s| ==> s[j] != id;
    forall x ensures x in r <==> x == id || x in s {
      if x in s {
        var j :| 0 <= j < |s| && s[j] == x;
        var k := if j < i then j else j + 1;
        assert r[k] == x;
      }
      if x == id { assert r[i] == id; }
    }
  }

  lemma {:induction false} SeqSetSize(s: seq<string>, x: set<string>)
    requires Distinct(s) && forall id :: id in s <==> id in x
    ensures |x| == |s|
  {
    if s == [] {
      assert x == {};
    } else {
      var last := s[|s| - 1];
      assert last !in s[..|s| - 1];
      forall id ensures id in s[..|s| - 1] <==> id in x - {last} {
        if id in x - {last} {
          var j :| 0 <= j < |s| && s[j] == id;
          assert s[..|s| - 1][j] == id;
        }
      }
      SeqSetSize(s[..|s| - 1], x - {last});
    }
  }

  function Expired(t: Table, cutoff: int): set<string> {
    set id | id in t && IsFinished(t[id]) && t[id].finished.value < cutoff
  }

  function Elements(s: seq<string>): set<string> { set x | x in s }

  /** t' is t without gone. */
  ghost predicate Less(t: Table, t': Table, gone: set<string>) {
    t'.Keys == t.Keys - gone && forall id :: id in t' ==> t'[id] == t[id]
  }

  /** Dropping the expired ones and the first of the sorted rest is a prune. */
  lemma DropOldest(t: Table, s: seq<string>, cutoff: int, max: nat, n: nat, t': Table)
    requires SortedByFinish(t, s) && Distinct(s) && forall id :: id in s <==> id in Recent(t, cutoff)
    requires n == if |s| <= max then 0 else |s| - max
    requires Less(t, t', Expired(t, cutoff) + Elements(s[..n]))
    ensures Pruned(t, t', cutoff, max)
  {
    SeqSetSize(s, Recent(t, cutoff));
    assert forall x :: x in s[..n] ==> x in s;
    RestIsRecent(t, s, cutoff, n, t');
    SeqSetSize(s[n..], Recent(t', cutoff));
    forall gone, kept | gone in Recent(t, cutoff) && gone !in t' && kept in Recent(t', cutoff)
      ensures t[gone].finished.value <= t[kept].finished.value
    {
      assert gone in s[..n] && kept in s[n..];
      var i :| 0 <= i < n && s[i] == gone;
      var j :| n <= j < |s| && s[j] == kept;
      assert FinishOf(t, s[i]) <= FinishOf(t, s[j]);
    }
  }

  lemma RestIsRecent(t: Table, s: seq<string>, cutoff: int, n: nat, t': Table)
    requires Distinct(s) && (forall id :: id in s <==> id in Recent(t, cutoff)) && n <= |s|
    requires Less(t, t', Expired(t, cutoff) + Elements(s[..n]))
    ensures Distinct(s[n..]) && forall id :: id in s[n..] <==> id in Recent(t', cutoff)
  {
    assert forall j {:trigger s[j]} :: 0 <= j < n ==> s[..n][j] == s[j];
    forall id ensures id in s[n..] <==> id in Recent(t', cutoff) {
      if id in s[n..] {
        var j :| n <= j < |s| && s[j] == id;
        assert id in s && id !in s[..n];
      }
      if id in Recent(t', cutoff) {
        assert id in Recent(t, cutoff) && id !in s[..n];
        var j :| 0 <= j < |s| && s[j] == id;
      }
    }
  }

  // ------------------------------------------------------------ the manager

  /** What Start may answer and leave: the unfinished job of the same work, or a new one. */
  ghost predicate Started(t: Table, t': Table, r: Request, id: string, now: int, cutoff: int, max: nat, job: Job, created: bool) {
    exists m: Table :: Pruned(t, m, cutoff, max) && StartedFrom(m, t', r, id, now, job, created)
  }

  ghost predicate StartedFrom(m: Table, t': Table, r: Request, id: string, now: int, job: Job, created: bool) {
    if created then
      && (forall x :: x in m && SameWork(m[x], r) ==> Done(m[x]))
      && job == NewJob(r, id, now) && t' == m[id := job]
    else
      && t' == m && exists x :: x in m && job == m[x] && SameWork(job, r) && !Done(job)
  }

  class Manager {
    var jobs: Table
    const retention: nat
    const maxJobs: nat

    constructor (retention: nat, maxJobs: nat)
      ensures jobs == map[] && this.retention == retention && this.maxJobs == maxJobs
    {
      jobs := map[];
      this.retention, this.maxJobs := retention, maxJobs;
    }

    /** pruneLocked: drop what is past retention, then the oldest beyond the cap. */
    method PruneLocked(now: int)
      modifies this`jobs
      ensures Pruned(old(jobs), jobs, now - retention, maxJobs)
    {
      ghost var t := jobs;
      var finished := DropExpired(now - retention);
      var n := if |finished| <= maxJobs then 0 else |finished| - maxJobs;
      DropAll(finished[..n]);
      DropOldest(t, finished, now - retention, maxJobs, n, jobs);
    }

    /** The first loop: the expired ones go, the other finished ones are sorted. */
    method DropExpired(cutoff: int) returns (finished: seq<string>)
      modifies this`jobs
      ensures Less(old(jobs), jobs, Expired(old(jobs), cutoff))
      ensures SortedByFinish(old(jobs), finished) && Distinct(finished)
      ensures forall id :: id in finished <==> id in Recent(old(jobs), cutoff)
    {
      var t := jobs;
      var todo := t.Keys;
      finished := [];
      while todo != {}
        invariant todo <= t.Keys
        invariant Less(t, jobs, Expired(t, cutoff) - todo)
        invariant SortedByFinish(t, finished) && Distinct(finished)
        invariant forall id :: id in finished <==> id in Recent(t, cutoff) && id !in todo
      {
        var id :| id in todo;
        if Done(t[id]) && t[id].finished.Some? {
          if t[id].finished.value < cutoff {
            jobs := jobs - {id};
          } else {
            finished := InsertByFinish(t, finished, id);
          }
        }
        todo := todo - {id};
      }
    }

    /** The second loop. */
    method DropAll(ids: seq<string>)
      modifies this`jobs
      ensures Less(old(jobs), jobs, Elements(ids))
    {
      for i := 0 to |ids|
        invariant Less(old(jobs), jobs, Elements(ids[..i]))
      {
        jobs := jobs - {ids[i]};
        assert ids[..i + 1] == ids[..i] + [ids[i]];
      }
      assert ids[..|ids|] == ids;
    }

    /** Start: the job of the same work still unfinished, else a new one under a fresh id. */
    method Start(r: Request, id: string, now: int) returns (job: Job, created: bool)
      requires id !in jobs
      modifies this`jobs
      ensures Started(old(jobs), jobs, r, id, now, now - retention, maxJobs, job, created)
      ensures job.kind == r.kind && job.backend == r.backend && job.model == r.model
      ensures created ==> && id in jobs && jobs[id] == job && job.id == id && job.node == r.node && job.preset == r.preset
                          && job.phase == Pending && job.completed == 0 && job.total == 0 && job.percent == 0.0
                          && job.created == now && job.started == None && job.finished == None
      ensures !created ==> job.phase in {Pending, Running} && exists x :: x in old(jobs) && x in jobs && old(jobs)[x] == jobs[x] == job
    {
      PruneLocked(now);
      ghost var m := jobs;
      var todo := jobs.Keys;
      while todo != {}
        invariant todo <= jobs.Keys && jobs == m
        invariant forall x :: x in jobs.Keys - todo && SameWork(jobs[x], r) ==> Done(jobs[x])
      {
        var x :| x in todo;
        if SameWork(jobs[x], r) && !Done(jobs[x]) {
          assert StartedFrom(m, jobs, r, id, now, jobs[x], false);
          return jobs[x], false;
        }
        todo := todo - {x};
      }
      job, created := NewJob(r, id, now), true;
      jobs := jobs[id := job];
      assert StartedFrom(m, jobs, r, id, now, job, true);
    }

    /** The three updates of a run; one of a job no longer listed changes nothing. */
    method Begin(id: string, now: int)
      modifies this`jobs
      ensures jobs == if id in old(jobs) then old(jobs)[id := Begun(old(jobs)[id], now)] else old(jobs)
    {
      if id in jobs { jobs := jobs[id := jobs[id].(phase := Running, started := Some(now))]; }
    }

    method Report(id: string, p: Progress)
      modifies this`jobs
      ensures jobs == if id in old(jobs) then old(jobs)[id := Reported(old(jobs)[id], p)] else old(jobs)
    {
      if id in jobs {
        var j := jobs[id];
        if p.status != "" { j := j.(status := p.status); }
        if p.total > 0 { j := j.(total := p.total); }
        if p.completed > j.completed { j := j.(completed := p.completed); }
        if p.node != "" { j := j.(node := p.node); }
        if p.preset != "" { j := j.(preset := p.preset); }
        if j.total > 0 {
          var percent := j.completed as real / j.total as real * 100.0;
          if percent > 100.0 { percent := 100.0; }
          j := j.(percent := percent);
        }
        jobs := jobs[id := j];
      }
    }

    /** The last update of a run: its job is over, and told apart by how it ended. */
    method End(id: string, r: Result, cancelled: bool, now: int)
      modifies this`jobs
      ensures jobs == if id in old(jobs) then old(jobs)[id := Ended(old(jobs)[id], r, cancelled, now)] else old(jobs)
      ensures jobs.Keys == old(jobs).Keys && forall x :: x in jobs && x != id ==> jobs[x] == old(jobs)[x]
      ensures id in jobs ==> Done(jobs[id]) && jobs[id].finished == Some(now)
      ensures id in jobs ==> (jobs[id].phase.Succeeded? <==> r.Ok?) && (jobs[id].phase.Cancelled? <==> r.CanceledError? && cancelled)
      ensures id in jobs && r.Ok? ==> jobs[id].percent == 100.0 && (jobs[id].total > 0 ==> jobs[id].completed == jobs[id].total)
      ensures id in jobs && !r.Ok? ==> jobs[id].percent == old(jobs)[id].percent && jobs[id].completed == old(jobs)[id].completed
    {
      if id in jobs {
        var j := jobs[id].(finished := Some(now));
        if r.CanceledError? && cancelled {
          j := j.(phase := Cancelled);
        } else if !r.Ok? {
          j := j.(phase := Failed);
        } else {
          j := j.(phase := Succeeded);
          if j.total > 0 { j := j.(completed := j.total); }
          j := j.(percent := 100.0);
        }
        jobs := jobs[id := j];
      }
    }
  }

  // ------------------------------------------------------------ every interleaving

  /** A run's place: not begun, in its operation, past its last update, or its done
      channel closed. */
  datatype Pc = Spawned | InOperation | Returned | Closed

  /** The table, the goroutines of every job ever started, and the cancelled contexts. */
  datatype State = State(jobs: Table, runs: map<string, Pc>, cancelled: set<string>)

  datatype Action =
    | StartJob(r: Request, id: string, now: int, job: Job, created: bool)
    | BeginRun(id: string, now: int)
    | ReportRun(id: string, p: Progress)
    | EndRun(id: string, result: Result, now: int)
    | CloseRun(id: string)
    | CancelJob(id: string)
    | ListJobs(now: int)

  function Update(t: Table, id: string, f: Job -> Job): Table { if id in t then t[id := f(t[id])] else t }

  ghost predicate Next(s: State, a: Action, s': State, retention: nat, max: nat) {
    match a
    case StartJob(r, id, now, job, created) =>
      && id !in s.runs
      && Started(s.jobs, s'.jobs, r, id, now, now - retention, max, job, created)
      && s'.runs == (if created then s.runs[id := Spawned] else s.runs) && s'.cancelled == s.cancelled
    case BeginRun(id, now) =>
      && id in s.runs && s.runs[id].Spawned?
      && s' == s.(runs := s.runs[id := InOperation], jobs := Update(s.jobs, id, j => Begun(j, now)))
    case ReportRun(id, p) =>
      && id in s.runs && s.runs[id].InOperation?
      && s' == s.(jobs := Update(s.jobs, id, j => Reported(j, p)))
    case EndRun(id, result, now) =>
      && id in s.runs && s.runs[id].InOperation?
      && s' == s.(runs := s.runs[id := Returned],
                  jobs := Update(s.jobs, id, j => Ended(j, result, id in s.cancelled, now)))
    case CloseRun(id) =>
      id in s.runs && s.runs[id].Returned? && s' == s.(runs := s.runs[id := Closed])
    case CancelJob(id) =>
      s' == if id in s.jobs && !Done(s.jobs[id]) then s.(cancelled := s.cancelled + {id}) else s
    case ListJobs(now) =>
      Pruned(s.jobs, s'.jobs, now - retention, max) && s'.runs == s.runs && s'.cancelled == s.cancelled
  }

  predicate Counted(j: Job) { j.completed >= 0 && 0.0 <= j.percent <= 100.0 }

  /** A job as its run has it: listed and unfinished while the run is under way. */
  ghost predicate JobOk(s: State, id: string)
    requires id in s.runs
  {
    match s.runs[id]
    case Spawned => id in s.jobs && s.jobs[id].phase == Pending
    case InOperation => id in s.jobs && s.jobs[id].phase == Running
    case Returned => id in s.jobs ==> IsFinished(s.jobs[id])
    case Closed => id in s.jobs ==> IsFinished(s.jobs[id])
  }

  ghost predicate OnePerWork(t: Table) {
    forall x, y :: x in t && y in t && x != y && !Done(t[x]) && !Done(t[y]) ==> !SameKey(t[x], t[y])
  }

  predicate SameKey(j: Job, k: Job) { j.kind == k.kind && j.backend == k.backend && j.model == k.model }

  ghost predicate Inv(s: State) {
    && (forall id :: id in s.jobs ==> id in s.runs && s.jobs[id].id == id && Counted(s.jobs[id]))
    && (forall id :: id in s.runs ==> JobOk(s, id))
    && OnePerWork(s.jobs)
  }

  lemma ReportCounts(j: Job, p: Progress)
    requires Counted(j)
    ensures Counted(Reported(j, p)) && Reported(j, p).completed >= j.completed && Reported(j, p).phase == j.phase
  {
  }

  lemma PruneKeeps(s: State, t': Table, cutoff: int, max: nat)
    requires Inv(s) && Pruned(s.jobs, t', cutoff, max)
    ensures Inv(s.(jobs := t'))
  {
    var s' := s.(jobs := t');
    forall id | id in s'.runs ensures JobOk(s', id) { assert JobOk(s, id); }
  }

  /** One job's update beside its run's move. */
  lemma MoveKeeps(s: State, id: string, job: Job, pc: Pc)
    requires Inv(s) && id in s.jobs
    requires job.id == id && SameKey(job, s.jobs[id]) && Counted(job) && (!Done(job) ==> !Done(s.jobs[id]))
    requires JobOk(s.(jobs := s.jobs[id := job], runs := s.runs[id := pc]), id)
    ensures Inv(s.(jobs := s.jobs[id := job], runs := s.runs[id := pc]))
  {
    var s' := s.(jobs := s.jobs[id := job], runs := s.runs[id := pc]);
    forall x | x in s'.runs ensures JobOk(s', x) {
      if x != id { assert JobOk(s, x); }
    }
  }

  lemma StartKeeps(s: State, m: Table, id: string, job: Job, t': Table, r: Request, now: int)
    requires Inv(s.(jobs := m)) && id !in s.runs && StartedFrom(m, t', r, id, now, job, true)
    ensures Inv(s.(jobs := t', runs := s.runs[id := Spawned]))
  {
    var s' := s.(jobs := t', runs := s.runs[id := Spawned]);
    forall x | x in s'.runs ensures JobOk(s', x) {
      if x != id { assert JobOk(s.(jobs := m), x); }
    }
  }

  lemma CancelKeeps(s: State, cancelled: set<string>)
    requires Inv(s)
    ensures Inv(s.(cancelled := cancelled))
  {
    forall x | x in s.runs ensures JobOk(s.(cancelled := cancelled), x) { assert JobOk(s, x); }
  }

  lemma CloseKeeps(s: State, id: string)
    requires Inv(s) && id in s.runs && s.runs[id].Returned?
    ensures Inv(s.(runs := s.runs[id := Closed]))
  {
    var s' := s.(runs := s.runs[id := Closed]);
    forall x | x in s'.runs ensures JobOk(s', x) { assert JobOk(s, x); }
  }

  lemma StartStepKeeps(s: State, r: Request, id: string, now: int, job: Job, created: bool, t': Table, retention: nat, max: nat)
    requires Inv(s) && Started(s.jobs, t', r, id, now, now - retention, max, job, created)
    requires created ==> id !in s.runs
    ensures Inv(if created then s.(jobs := t', runs := s.runs[id := Spawned]) else s.(jobs := t'))
  {
    var m :| Pruned(s.jobs, m, now - retention, max) && StartedFrom(m, t', r, id, now, job, created);
    PruneKeeps(s, m, now - retention, max);
    if created { StartKeeps(s, m, id, job, t', r, now); }
  }

  lemma StepKeeps(s: State, a: Action, s': State, retention: nat, max: nat)
    requires Inv(s) && Next(s, a, s', retention, max)
    ensures Inv(s')
  {
    match a
    case StartJob(r, id, now, job, created) =>
      StartStepKeeps(s, r, id, now, job, created, s'.jobs, retention, max);
      assert s' == if created then s.(jobs := s'.jobs, runs := s.runs[id := Spawned]) else s.(jobs := s'.jobs);
    case ListJobs(now) =>
      PruneKeeps(s, s'.jobs, now - retention, max);
      assert s' == s.(jobs := s'.jobs);
    case BeginRun(id, now) =>
      assert JobOk(s, id);
      MoveKeeps(s, id, Begun(s.jobs[id], now), InOperation);
    case ReportRun(id, p) =>
      assert JobOk(s, id);
      ReportCounts(s.jobs[id], p);
      MoveKeeps(s, id, Reported(s.jobs[id], p), InOperation);
      assert s.runs[id := InOperation] == s.runs;
    case EndRun(id, result, now) =>
      assert JobOk(s, id);
      MoveKeeps(s, id, Ended(s.jobs[id], result, id in s.cancelled, now), Returned);
    case CloseRun(id) => CloseKeeps(s, id);
    case CancelJob(id) => CancelKeeps(s, s'.cancelled);
  }

  ghost predicate IsRun(states: seq<State>, actions: seq<Action>, retention: nat, max: nat) {
    && |states| == |actions| + 1 && states[0] == State(map[], map[], {})
    && forall i :: 0 <= i < |actions| ==> Next(states[i], actions[i], states[i + 1], retention, max)
  }

  /** Over every interleaving: at most one unfinished job per type, backend and model,
      every unfinished run's job still listed, counts and percentages in range. */
  lemma {:induction false} EveryRun(states: seq<State>, actions: seq<Action>, retention: nat, max: nat, i: nat)
    requires IsRun(states, actions, retention, max) && i <= |actions|
    ensures Inv(states[i])
  {
    if i > 0 {
      EveryRun(states, actions, retention, max, i - 1);
      StepKeeps(states[i - 1], actions[i - 1], states[i], retention, max);
    }
  }

  /** What EveryRun says of two jobs: unfinished ones of one type, backend and model are one;
      a job whose run is not over is listed; counts and percentages are in range. */
  lemma OneUnfinishedEach(states: seq<State>, actions: seq<Action>, retention: nat, max: nat, i: nat, x: string, y: string)
    requires IsRun(states, actions, retention, max) && i <= |actions|
    ensures var s := states[i];
            && (x in s.jobs && y in s.jobs && SameKey(s.jobs[x], s.jobs[y]) && !Done(s.jobs[x]) && !Done(s.jobs[y]) ==> x == y)
            && (x in s.runs && !Over(s, x) ==> x in s.jobs && !Done(s.jobs[x]))
            && (x in s.jobs ==> s.jobs[x].completed >= 0 && 0.0 <= s.jobs[x].percent <= 100.0)
  {
    EveryRun(states, actions, retention, max, i);
    if x in states[i].runs { assert JobOk(states[i], x); }
  }

  predicate Over(s: State, id: string) { id in s.runs && (s.runs[id].Returned? || s.runs[id].Closed?) }

  lemma StepAbsorbs(s: State, a: Action, s': State, retention: nat, max: nat, id: string)
    requires Inv(s) && Next(s, a, s', retention, max) && Over(s, id)
    ensures Over(s', id) && (id in s'.jobs ==> id in s.jobs && s'.jobs[id] == s.jobs[id])
  {
    if a.StartJob? {
      var m :| Pruned(s.jobs, m, a.now - retention, max) && StartedFrom(m, s'.jobs, a.r, a.id, a.now, a.job, a.created);
    }
  }

  /** Terminal phases are absorbing: a finished job stays as it finished until it is pruned. */
  lemma {:induction false} FinishedForGood(states: seq<State>, actions: seq<Action>, retention: nat, max: nat, i: nat, j: nat, id: string)
    requires IsRun(states, actions, retention, max) && i <= j <= |actions|
    requires id in states[i].jobs && Done(states[i].jobs[id])
    ensures Over(states[j], id)
    ensures id in states[j].jobs ==> states[j].jobs[id] == states[i].jobs[id]
  {
    EveryRun(states, actions, retention, max, i);
    assert JobOk(states[i], id);
    if i < j {
      FinishedForGood(states, actions, retention, max, i, j - 1, id);
      EveryRun(states, actions, retention, max, j - 1);
      StepAbsorbs(states[j - 1], actions[j - 1], states[j], retention, max, id);
    }
  }

  lemma StepCarries(s: State, a: Action, s': State, retention: nat, max: nat, id: string)
    requires Inv(s) && Next(s, a, s', retention, max) && id in s.jobs && !Done(s.jobs[id])
    ensures id in s'.jobs
    ensures !Done(s'.jobs[id]) ==> s'.jobs[id].completed >= s.jobs[id].completed
    ensures Done(s'.jobs[id]) ==> a.EndRun? && a.id == id
  {
    assert JobOk(s, id);
    if a.StartJob? {
      var m :| Pruned(s.jobs, m, a.now - retention, max) && StartedFrom(m, s'.jobs, a.r, a.id, a.now, a.job, a.created);
      assert id in m;
    }
    if a.ReportRun? && a.id == id { ReportCounts(s.jobs[id], a.p); }
  }

  /** An unfinished job is listed until it ends, and its bytes never fall meanwhile. */
  lemma {:induction false} BytesNeverFall(states: seq<State>, actions: seq<Action>, retention: nat, max: nat, i: nat, j: nat, id: string)
    requires IsRun(states, actions, retention, max) && i <= j <= |actions|
    requires id in states[i].jobs
    requires id in states[j].jobs && !Done(states[j].jobs[id])
    ensures !Done(states[i].jobs[id]) && states[i].jobs[id].completed <= states[j].jobs[id].completed
    decreases j - i
  {
    if Done(states[i].jobs[id]) {
      FinishedForGood(states, actions, retention, max, i, j, id);
      assert false;
    }
    if i < j {
      EveryRun(states, actions, retention, max, i);
      StepCarries(states[i], actions[i], states[i + 1], retention, max, id);
      BytesNeverFall(states, actions, retention, max, i + 1, j, id);
    }
  }
}
