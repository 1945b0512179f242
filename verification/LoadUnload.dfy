/** Load jobs against unloads (internal/service/service.go): a load job waits for
    readiness and re-wires the model; an unload ends the job before it removes the
    wiring, so that no late re-wire undoes it. */
module LoadUnload {
  import opened Basics
  import opened Jobs

  /** Where a load job's operation stands: in WaitReady, after it, past the check of
      its context and wiring, or returned. */
  datatype Op = Waiting | BeforeCheck | Wiring | OpDone(result: Result)

  /** An unload in endLoadJob and after: the jobs ever started before it listed the
      table (before), those listed and not yet awaited, the one it awaits; calm while
      no await ended early; removed once Remove ran. */
  datatype Unload = Unload(backend: string, model: string, before: set<string>, todo: set<string>,
                           awaiting: Option<string>, calm: bool, removed: bool)

  datatype System = System(manager: State, ops: map<string, Op>, work: map<string, Request>, unloads: map<nat, Unload>)

  datatype Move =
    | Manage(a: Action)
    | BecomesReady(id: string)                       // WaitReady returned nil
    | WaitFails(id: string, result: Result)
    | CheckContext(id: string)
    | Wire(id: string)                               // the ModelConfig is written
    | WireEnds(id: string, result: Result)
    | ListForUnload(u: nat, backend: string, model: string, now: int)
    | CancelNext(u: nat, id: string)
    | AwaitReturns(u: nat)
    | AwaitEndsEarly(u: nat)                         // the caller's context ended first
    | RemoveWiring(u: nat)

  predicate LoadsModel(r: Request, backend: string, model: string) {
    r.kind.Load? && r.backend == backend && r.model == model
  }

  /** The jobs endLoadJob goes through. */
  function Following(t: Table, backend: string, model: string): set<string> {
    set id | id in t && t[id].kind.Load? && t[id].backend == backend && t[id].model == model && !Done(t[id])
  }

  ghost predicate Next(s: System, m: Move, s': System, retention: nat, max: nat) {
    match m
    case Manage(a) =>
      && Jobs.Next(s.manager, a, s'.manager, retention, max) && s'.unloads == s.unloads
      && (match a
          case StartJob(r, id, now, job, created) =>
            s'.work == (if created then s.work[id := r] else s.work)
            && s'.ops == (if created && r.kind.Load? then s.ops[id := Waiting] else s.ops)
          case EndRun(id, result, now) =>
            s'.work == s.work && s'.ops == s.ops && (id in s.ops ==> s.ops[id] == OpDone(result))
          case _ => s'.work == s.work && s'.ops == s.ops)
    case BecomesReady(id) => Operating(s, id, Waiting) && s' == s.(ops := s.ops[id := BeforeCheck])
    case WaitFails(id, result) => Operating(s, id, Waiting) && s' == s.(ops := s.ops[id := OpDone(result)])
    case CheckContext(id) =>
      && Operating(s, id, BeforeCheck)
      && s' == s.(ops := s.ops[id := if id in s.manager.cancelled then OpDone(CanceledError) else Wiring])
    case Wire(id) => Operating(s, id, Wiring) && s' == s
    case WireEnds(id, result) => Operating(s, id, Wiring) && s' == s.(ops := s.ops[id := OpDone(result)])
    case ListForUnload(u, backend, model, now) =>
      && u !in s.unloads && Jobs.Next(s.manager, ListJobs(now), s'.manager, retention, max)
      && s' == s.(manager := s'.manager,
                  unloads := s.unloads[u := Unload(backend, model, s.manager.runs.Keys,
                                                   Following(s'.manager.jobs, backend, model), None, true, false)])
    case CancelNext(u, id) =>
      && u in s.unloads && s.unloads[u].awaiting.None? && id in s.unloads[u].todo
      && Jobs.Next(s.manager, CancelJob(id), s'.manager, retention, max)
      && s' == s.(manager := s'.manager,
                  unloads := s.unloads[u := s.unloads[u].(todo := s.unloads[u].todo - {id},
                                                          awaiting := if id in s.manager.jobs then Some(id) else None)])
    case AwaitReturns(u) =>
      && u in s.unloads && s.unloads[u].awaiting.Some?
      // the done channel closed, or the job is pruned: no job has that id
      && (Closes(s.manager, s.unloads[u].awaiting.value) || s.unloads[u].awaiting.value !in s.manager.jobs)
      && s' == s.(unloads := s.unloads[u := s.unloads[u].(awaiting := None)])
    case AwaitEndsEarly(u) =>
      && u in s.unloads && s.unloads[u].awaiting.Some?
      && s' == s.(unloads := s.unloads[u := s.unloads[u].(awaiting := None, calm := false)])
    case RemoveWiring(u) =>
      && u in s.unloads && s.unloads[u].awaiting.None? && s.unloads[u].todo == {} && !s.unloads[u].removed
      && s' == s.(unloads := s.unloads[u := s.unloads[u].(removed := true)])
  }

  predicate Closes(m: State, id: string) { id in m.runs && m.runs[id].Closed? }

  ghost predicate Operating(s: System, id: string, op: Op) {
    id in s.manager.runs && s.manager.runs[id].InOperation? && id in s.ops && s.ops[id] == op
  }

  /** A job that cannot wire any more. */
  predicate OpOver(s: System, id: string) {
    id in s.manager.runs && (s.manager.runs[id].Returned? || s.manager.runs[id].Closed?)
  }

  /** Every load of the model begun before the unload is over, or still to be awaited. */
  ghost predicate UnloadOk(s: System, u: nat)
    requires u in s.unloads
  {
    var d := s.unloads[u];
    && d.before <= s.manager.runs.Keys
    && (d.calm ==> forall id :: id in d.before && id in s.work && LoadsModel(s.work[id], d.backend, d.model) ==>
          OpOver(s, id) || id in d.todo || d.awaiting == Some(id))
    && (d.removed ==> d.todo == {} && d.awaiting.None?)
  }

  ghost predicate WorkOk(s: System) {
    && s.work.Keys == s.manager.runs.Keys
    && (forall id :: id in s.manager.jobs ==> id in s.work && SameWork(s.manager.jobs[id], s.work[id]))
  }

  ghost predicate Inv(s: System) {
    Jobs.Inv(s.manager) && WorkOk(s) && forall u :: u in s.unloads ==> UnloadOk(s, u)
  }

  lemma ManagerStepKeepsWork(m: State, a: Action, m': State, retention: nat, max: nat)
    requires Jobs.Inv(m) && Jobs.Next(m, a, m', retention, max)
    ensures m.runs.Keys <= m'.runs.Keys
    ensures a.StartJob? && a.created ==> m'.runs.Keys == m.runs.Keys + {a.id} && SameWork(a.job, a.r)
    ensures !(a.StartJob? && a.created) ==> m'.runs.Keys == m.runs.Keys
    ensures forall id :: id in m'.jobs && !(a.StartJob? && a.created && id == a.id) ==>
              id in m.jobs && SameKey(m'.jobs[id], m.jobs[id])
    ensures a.StartJob? && a.created && a.id in m'.jobs ==> m'.jobs[a.id] == a.job
    ensures forall id :: id in m.runs && (m.runs[id].Returned? || m.runs[id].Closed?) ==>
              m'.runs[id].Returned? || m'.runs[id].Closed?
  {
    if a.StartJob? {
      var t :| Pruned(m.jobs, t, a.now - retention, max) && StartedFrom(t, m'.jobs, a.r, a.id, a.now, a.job, a.created);
    }
  }

  lemma ManageKeeps(s: System, a: Action, s': System, retention: nat, max: nat)
    requires Inv(s) && Next(s, Manage(a), s', retention, max)
    ensures Inv(s')
  {
    StepKeeps(s.manager, a, s'.manager, retention, max);
    ManagerStepKeepsWork(s.manager, a, s'.manager, retention, max);
    forall u | u in s'.unloads ensures UnloadOk(s', u) { assert UnloadOk(s, u); }
  }

  /** A listed job is unfinished exactly while its run is not over. */
  lemma UnlistedIsOver(m: State, id: string)
    requires Jobs.Inv(m) && id in m.runs && (id !in m.jobs || Done(m.jobs[id]))
    ensures m.runs[id].Returned? || m.runs[id].Closed?
  {
    assert JobOk(m, id);
  }

  lemma ListKeeps(s: System, m: Move, s': System, retention: nat, max: nat)
    requires Inv(s) && m.ListForUnload? && Next(s, m, s', retention, max)
    ensures Inv(s')
  {
    StepKeeps(s.manager, ListJobs(m.now), s'.manager, retention, max);
    ManagerStepKeepsWork(s.manager, ListJobs(m.now), s'.manager, retention, max);
    forall id | id in s'.work && LoadsModel(s'.work[id], m.backend, m.model)
      ensures OpOver(s', id) || id in s'.unloads[m.u].todo
    {
      if id !in s'.manager.jobs || Done(s'.manager.jobs[id]) { UnlistedIsOver(s'.manager, id); }
    }
    forall u | u in s'.unloads ensures UnloadOk(s', u) {
      if u != m.u { assert UnloadOk(s, u); }
    }
  }

  lemma CancelKeeps(s: System, m: Move, s': System, retention: nat, max: nat)
    requires Inv(s) && m.CancelNext? && Next(s, m, s', retention, max)
    ensures Inv(s')
  {
    StepKeeps(s.manager, CancelJob(m.id), s'.manager, retention, max);
    if m.id in s.manager.runs && m.id !in s.manager.jobs { UnlistedIsOver(s.manager, m.id); }
    forall u | u in s'.unloads ensures UnloadOk(s', u) { assert UnloadOk(s, u); }
  }

  lemma UnloadMoveKeeps(s: System, m: Move, s': System, retention: nat, max: nat)
    requires Inv(s) && (m.AwaitReturns? || m.AwaitEndsEarly? || m.RemoveWiring?) && Next(s, m, s', retention, max)
    ensures Inv(s')
  {
    if m.AwaitReturns? {
      var id := s.unloads[m.u].awaiting.value;
      if id in s.manager.runs && id !in s.manager.jobs { UnlistedIsOver(s.manager, id); }
    }
    forall u | u in s'.unloads ensures UnloadOk(s', u) { assert UnloadOk(s, u); }
  }

  lemma MoveKeeps(s: System, m: Move, s': System, retention: nat, max: nat)
    requires Inv(s) && Next(s, m, s', retention, max)
    ensures Inv(s')
  {
    if m.Manage? {
      ManageKeeps(s, m.a, s', retention, max);
    } else if m.ListForUnload? {
      ListKeeps(s, m, s', retention, max);
    } else if m.CancelNext? {
      CancelKeeps(s, m, s', retention, max);
    } else if m.AwaitReturns? || m.AwaitEndsEarly? || m.RemoveWiring? {
      UnloadMoveKeeps(s, m, s', retention, max);
    } else {
      assert s'.manager == s.manager && s'.work == s.work && s'.unloads == s.unloads;
      forall u | u in s'.unloads ensures UnloadOk(s', u) { assert UnloadOk(s, u); }
    }
  }

  const Empty: System := System(State(map[], map[], {}), map[], map[], map[])

  ghost predicate IsRun(states: seq<System>, moves: seq<Move>, retention: nat, max: nat) {
    && |states| == |moves| + 1 && states[0] == Empty
    && forall i :: 0 <= i < |moves| ==> Next(states[i], moves[i], states[i + 1], retention, max)
  }

  lemma {:induction false} EveryState(states: seq<System>, moves: seq<Move>, retention: nat, max: nat, i: nat)
    requires IsRun(states, moves, retention, max) && i <= |moves|
    ensures Inv(states[i])
  {
    if i > 0 {
      EveryState(states, moves, retention, max, i - 1);
      MoveKeeps(states[i - 1], moves[i - 1], states[i], retention, max);
    }
  }

  /** What an unload and a started job keep from one state to a later one. */
  lemma {:induction false} Later(states: seq<System>, moves: seq<Move>, retention: nat, max: nat, i: nat, j: nat, u: nat)
    requires IsRun(states, moves, retention, max) && i <= j <= |moves| && u in states[i].unloads && states[i].unloads[u].removed
    ensures u in states[j].unloads && states[j].unloads[u] == states[i].unloads[u]
  {
    EveryState(states, moves, retention, max, i);
    assert UnloadOk(states[i], u);
    if i < j { Later(states, moves, retention, max, i, j - 1, u); }
  }

  /** In every interleaving: once an unload whose awaits all returned has removed the
      wiring, no load job of its model that was started before it wires again. */
  lemma UnloadIsFinal(states: seq<System>, moves: seq<Move>, retention: nat, max: nat, i: nat, j: nat, u: nat, id: string)
    requires IsRun(states, moves, retention, max) && i <= j < |moves|
    requires u in states[i].unloads && states[i].unloads[u].removed && states[i].unloads[u].calm
    requires moves[j] == Wire(id) && id in states[j].work
    requires LoadsModel(states[j].work[id], states[i].unloads[u].backend, states[i].unloads[u].model)
    ensures id !in states[i].unloads[u].before
  {
    Later(states, moves, retention, max, i, j, u);
    EveryState(states, moves, retention, max, j);
    assert UnloadOk(states[j], u);
    assert Next(states[j], moves[j], states[j + 1], retention, max);
    assert Operating(states[j], id, Wiring);
  }

  /** What an unload still has to await, or awaits, is a load of its own model. */
  ghost predicate OnlyItsOwn(s: System) { forall u :: u in s.unloads ==> EndsItsOwn(s.unloads[u], s.work) }

  ghost predicate EndsItsOwn(d: Unload, work: map<string, Request>) {
    forall id :: id in d.todo || d.awaiting == Some(id) ==>
      id in work && work[id].kind == Load && work[id].backend == d.backend && work[id].model == d.model
  }

  lemma MoveKeepsOwn(s: System, m: Move, s': System, retention: nat, max: nat)
    requires Inv(s) && OnlyItsOwn(s) && Next(s, m, s', retention, max)
    ensures OnlyItsOwn(s')
  {
    if m.Manage? {
      WorkStays(s, m, s', retention, max);
      forall u | u in s'.unloads ensures EndsItsOwn(s'.unloads[u], s'.work) { assert EndsItsOwn(s.unloads[u], s.work); }
    } else if m.ListForUnload? {
      MoveKeeps(s, m, s', retention, max);
      ListedAreItsOwn(s'.manager.jobs, s'.work, m.backend, m.model);
      forall u | u in s'.unloads ensures EndsItsOwn(s'.unloads[u], s'.work) {
        if u != m.u { assert EndsItsOwn(s.unloads[u], s.work); }
      }
    } else {
      EndsFewer(s, m, s', retention, max);
    }
  }

  lemma EndsFewer(s: System, m: Move, s': System, retention: nat, max: nat)
    requires OnlyItsOwn(s) && Next(s, m, s', retention, max) && !m.Manage? && !m.ListForUnload?
    ensures OnlyItsOwn(s')
  {
    forall u | u in s'.unloads ensures EndsItsOwn(s'.unloads[u], s'.work) { assert EndsItsOwn(s.unloads[u], s.work); }
  }

  lemma WorkStays(s: System, m: Move, s': System, retention: nat, max: nat)
    requires Inv(s) && m.Manage? && Next(s, m, s', retention, max)
    ensures forall id :: id in s.work ==> id in s'.work && s'.work[id] == s.work[id]
  {
  }

  lemma ListedAreItsOwn(t: Table, work: map<string, Request>, backend: string, model: string)
    requires forall id :: id in t ==> id in work && SameWork(t[id], work[id])
    ensures forall id :: id in Following(t, backend, model) ==>
              id in work && work[id].kind == Load && work[id].backend == backend && work[id].model == model
  {
  }

  /** In every interleaving an unload cancels and awaits only loads of its own model. */
  lemma {:induction false} UnloadEndsItsOwn(states: seq<System>, moves: seq<Move>, retention: nat, max: nat, i: nat)
    requires IsRun(states, moves, retention, max) && i <= |moves|
    ensures OnlyItsOwn(states[i])
  {
    if i > 0 {
      UnloadEndsItsOwn(states, moves, retention, max, i - 1);
      EveryState(states, moves, retention, max, i - 1);
      MoveKeepsOwn(states[i - 1], moves[i - 1], states[i], retention, max);
    }
  }

  /** Those it lists are the unfinished ones. */
  lemma ListedAreUnfinished(s: System, m: Move, s': System, retention: nat, max: nat, id: string)
    requires m.ListForUnload? && Next(s, m, s', retention, max)
    ensures m.u in s'.unloads
    ensures id in s'.unloads[m.u].todo <==>
              id in s'.manager.jobs && s'.manager.jobs[id].phase in {Pending, Running} && s'.manager.jobs[id].kind == Load
              && s'.manager.jobs[id].backend == m.backend && s'.manager.jobs[id].model == m.model
  {
  }

  // ------------------------------------------------------------ without the await

  const Sample: Request := Request(Load, "b", "m", "", "")

  const Fresh: Job := NewJob(Sample, "1", 0)

  /** The manager with the sample job begun. */
  function Going(cancelled: set<string>): State {
    State(map["1" := Begun(Fresh, 0)], map["1" := InOperation], cancelled)
  }

  function Under(todo: set<string>, awaiting: Option<string>, calm: bool, removed: bool): map<nat, Unload> {
    map[0 := Unload("b", "m", {"1"}, todo, awaiting, calm, removed)]
  }

  function SampleState(i: nat): System {
    var work: map<string, Request> := map["1" := Sample];
    var wiring := map["1" := Wiring];
    if i == 0 then Empty
    else if i == 1 then System(State(map["1" := Fresh], map["1" := Spawned], {}), map["1" := Waiting], work, map[])
    else if i == 2 then System(Going({}), map["1" := Waiting], work, map[])
    else if i == 3 then System(Going({}), map["1" := BeforeCheck], work, map[])
    else if i == 4 then System(Going({}), wiring, work, map[])
    else if i == 5 then System(Going({}), wiring, work, Under({"1"}, None, true, false))
    else if i == 6 then System(Going({"1"}), wiring, work, Under({}, Some("1"), true, false))
    else if i == 7 then System(Going({"1"}), wiring, work, Under({}, None, false, false))
    else System(Going({"1"}), wiring, work, Under({}, None, false, true))
  }

  function SampleMove(i: nat): Move {
    if i == 0 then Manage(StartJob(Sample, "1", 0, Fresh, true))
    else if i == 1 then Manage(BeginRun("1", 0))
    else if i == 2 then BecomesReady("1")
    else if i == 3 then CheckContext("1")
    else if i == 4 then ListForUnload(0, "b", "m", 0)
    else if i == 5 then CancelNext(0, "1")
    else if i == 6 then AwaitEndsEarly(0)
    else if i == 7 then RemoveWiring(0)
    else Wire("1")
  }

  lemma SampleStart(retention: nat, max: nat)
    ensures Next(SampleState(0), SampleMove(0), SampleState(1), retention, max)
  {
    var none: Table := map[];
    assert Recent(none, 0 - retention) == {};
    assert Pruned(none, none, 0 - retention, max);
    assert StartedFrom(none, map["1" := Fresh], Sample, "1", 0, Fresh, true);
  }

  lemma SampleList(retention: nat, max: nat)
    ensures Next(SampleState(4), SampleMove(4), SampleState(5), retention, max)
  {
    assert Following(Going({}).jobs, "b", "m") == {"1"} && Going({}).runs.Keys == {"1"};
    assert Recent(Going({}).jobs, 0 - retention) == {};
    assert Pruned(Going({}).jobs, Going({}).jobs, 0 - retention, max);
  }

  lemma SampleSteps(retention: nat, max: nat, i: nat)
    requires i < 9
    ensures Next(SampleState(i), SampleMove(i), SampleState(i + 1), retention, max)
  {
    if i == 0 {
      SampleStart(retention, max);
    } else if i == 4 {
      SampleList(retention, max);
    } else if i == 5 {
      assert {"1"} - {"1"} == {};
    }
  }

  /** The await is what the guarantee rests on: cancelled after its check of the
      context and not awaited to the end, a load job wires after the removal. */
  lemma EarlyAwaitLetsItWire(retention: nat, max: nat) returns (states: seq<System>, moves: seq<Move>)
    ensures IsRun(states, moves, retention, max) && |moves| == 9
    ensures moves[7] == RemoveWiring(0) && moves[8] == Wire("1")
    ensures var s := states[8]; "1" in s.work && s.work["1"] == Sample && 0 in s.unloads && "1" in s.unloads[0].before
  {
    states := seq(10, i requires 0 <= i => SampleState(i));
    moves := seq(9, i requires 0 <= i => SampleMove(i));
    forall i | 0 <= i < 9 ensures Next(states[i], moves[i], states[i + 1], retention, max) {
      SampleSteps(retention, max, i);
    }
  }
}
