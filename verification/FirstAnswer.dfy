/** The first request a model is asked when it turns Ready (internal/backend/kserve/answer.go,
    interfaces.go): lists that run beside each other, the requests they send and share, and
    what they remember of a Ready transition. */
module FirstAnswer {
  import opened Basics

  datatype Answer = NotAsked | Answered | Failed | Waiting | Skipped

  /** A request; no answer yet while it is in flight. */
  datatype Request = Request(uid: nat, transition: nat, answer: Option<Answer>)

  /** What a read of a Ready model's server found; retry: the next list reads again. */
  datatype API = API(answer: Answer, retry: bool)

  datatype StepState = Pending | InProgress | Done | FailedStep

  /** A listed object: full when its timeline has every step. */
  datatype Entry = Entry(uid: nat, transition: nat, ready: bool, deleting: bool, full: bool, routing: StepState, readyStep: StepState)

  /** How far a list is with one of its entries. */
  datatype Running =
    | Listed(e: Entry)
    | Reading(e: Entry)
    | Waits(e: Entry, request: nat, retry: bool)
    | Read(e: Entry, api: API)
    | Known(e: Entry, api: API)

  datatype State = State(
    requests: seq<Request>,
    asks: map<nat, nat>,                  // the request kept of each object
    cache: map<(nat, nat), API>,          // by object and Ready transition
    running: map<nat, Running>,
    current: map<nat, nat>,               // the Ready transition each object ever born is in
    live: set<nat>,
    mute: set<nat>)                       // objects whose server once named nothing to ask

  const START := State([], map[], map[], map[], map[], {}, {})

  datatype Event =
    | Born(uid: nat)
    | Turned(uid: nat)
    | Died(uid: nat)
    /** A list finds an object, in its present transition. */
    | Start(list: nat, entry: Entry)
    /** The entry is looked up under the lock; expired: a retry is due. */
    | Look(list: nat, expired: bool)
    | NoOrigin(list: nat)
    /** askFirst; reached: the interface reads were answered, askable: they name something to ask. */
    | Ask(list: nat, reached: bool, askable: bool)
    /** The wait ends with the answer, or without. */
    | Settle(list: nat, patient: bool)
    | Store(list: nat)
    | Finish(list: nat)
    | Reply(request: nat, answer: Answer)
    | Evict(keys: set<(nat, nat)>)
    | Forget(listed: set<nat>)

  predicate InFlight(s: State, i: nat) { i < |s.requests| && s.requests[i].answer == None }

  /** standingFailure. */
  predicate StandingFailure(s: State, uid: nat) {
    uid in s.asks && s.asks[uid] < |s.requests| && s.requests[s.asks[uid]].answer == Some(Failed)
  }

  /** The list may yet ask the object. */
  predicate MayAsk(r: Running, uid: nat) {
    r.e.uid == uid && (r.Reading? || (r.Listed? && r.e.ready && !r.e.deleting))
  }

  /** Nobody will ask the object again. */
  predicate Gone(s: State, uid: nat) {
    uid !in s.live && uid in s.current && forall l :: l in s.running ==> !MayAsk(s.running[l], uid)
  }

  /** askFirst sends a request of its own. */
  predicate Sends(s: State, e: Entry) {
    e.uid in s.asks && s.asks[e.uid] < |s.requests| ==>
      var r := s.requests[s.asks[e.uid]];
      r.answer != None && (r.transition != e.transition || r.answer == Some(Waiting))
  }

  predicate Enabled(s: State, v: Event) {
    match v
    case Born(uid) => uid !in s.current
    case Turned(uid) => uid in s.live && uid in s.current
    case Died(uid) => uid in s.live
    case Start(l, e) => l !in s.running && e.uid in s.live && e.uid in s.current && e.transition == s.current[e.uid]
    case Look(l, _) => l in s.running && s.running[l].Listed? && !s.running[l].e.deleting
    case NoOrigin(l) => l in s.running && s.running[l].Reading?
    case Ask(l, _, _) => l in s.running && s.running[l].Reading?
    case Settle(l, patient) => l in s.running && s.running[l].Waits? && (patient ==> !InFlight(s, s.running[l].request))
    case Store(l) => l in s.running && s.running[l].Read?
    case Finish(l) => l in s.running && (s.running[l].Known? || s.running[l].e.deleting)
    case Reply(i, a) => InFlight(s, i) && (a.Answered? || a.Failed? || a.Waiting?)
    case Evict(_) => true
    case Forget(listed) => forall uid :: uid in s.asks && uid !in listed ==> Gone(s, uid)
  }

  function Step(s: State, v: Event): State
    requires Enabled(s, v)
  {
    match v
    case Born(uid) => s.(current := s.current[uid := 0], live := s.live + {uid})
    case Turned(uid) => s.(current := s.current[uid := s.current[uid] + 1])
    case Died(uid) => s.(live := s.live - {uid})
    case Start(l, e) => s.(running := s.running[l := Listed(e)])
    case Look(l, expired) =>
      var e := s.running[l].e;
      var key := (e.uid, e.transition);
      var next :=
        if !e.ready then Known(e, API(if StandingFailure(s, e.uid) then Failed else NotAsked, false))
        else if key in s.cache && (!s.cache[key].retry || !expired) then Known(e, s.cache[key])
        else Reading(e);
      s.(running := s.running[l := next])
    case NoOrigin(l) => s.(running := s.running[l := Read(s.running[l].e, API(Waiting, true))])
    case Ask(l, reached, askable) =>
      var e := s.running[l].e;
      if !Sends(s, e) then s.(running := s.running[l := Waits(e, s.asks[e.uid], !reached)])
      else if !reached then s.(running := s.running[l := Read(e, API(Waiting, true))])
      else if !askable then s.(running := s.running[l := Read(e, API(Skipped, false))], mute := s.mute + {e.uid})
      else s.(requests := s.requests + [Request(e.uid, e.transition, None)],
              asks := s.asks[e.uid := |s.requests|],
              running := s.running[l := Waits(e, |s.requests|, false)])
    case Settle(l, patient) =>
      var w := s.running[l];
      var answer := if patient && w.request < |s.requests| && s.requests[w.request].answer.Some? then s.requests[w.request].answer.value else Waiting;
      s.(running := s.running[l := Read(w.e, API(answer, w.retry || answer == Waiting))])
    case Store(l) =>
      var r := s.running[l];
      s.(cache := s.cache[(r.e.uid, r.e.transition) := r.api], running := s.running[l := Known(r.e, r.api)])
    case Finish(l) => s.(running := s.running - {l})
    case Reply(i, a) => s.(requests := s.requests[i := s.requests[i].(answer := Some(a))])
    case Evict(keys) => s.(cache := s.cache - keys)
    case Forget(listed) => s.(asks := map uid | uid in s.asks && uid in listed :: s.asks[uid])
  }

  // ------------------------------------------------------------ the invariant

  ghost predicate OneInFlight(s: State) {
    forall i, j :: 0 <= i < j < |s.requests| && s.requests[i].uid == s.requests[j].uid ==> !(InFlight(s, i) && InFlight(s, j))
  }

  /** Some request of the object was answered. */
  ghost predicate WasAnswered(s: State, uid: nat) {
    exists i :: 0 <= i < |s.requests| && s.requests[i].uid == uid && s.requests[i].answer == Some(Answered)
  }

  ghost predicate WasRefused(s: State, uid: nat) {
    exists i :: 0 <= i < |s.requests| && s.requests[i].uid == uid && s.requests[i].answer == Some(Failed)
  }

  /** What an answer rests on. */
  ghost predicate Rests(s: State, uid: nat, a: Answer) {
    (a.Answered? ==> WasAnswered(s, uid)) && (a.Failed? ==> WasRefused(s, uid)) && (a.Skipped? ==> uid in s.mute)
  }

  ghost predicate RunningRests(s: State, r: Running) {
    && r.e.uid in s.current && r.e.transition <= s.current[r.e.uid]
    && (r.Waits? ==> r.request < |s.requests| && s.requests[r.request].uid == r.e.uid)
    && (r.Read? || r.Known? ==> Rests(s, r.e.uid, r.api.answer))
    && (r.Read? && r.api.answer.Waiting? ==> r.api.retry)
  }

  ghost predicate RequestRests(s: State, i: nat)
    requires i < |s.requests|
  {
    var r := s.requests[i];
    && r.uid in s.current && r.transition <= s.current[r.uid] && r.answer != Some(NotAsked) && r.answer != Some(Skipped)
    && (r.answer == None ==> (r.uid in s.asks && s.asks[r.uid] == i) || Gone(s, r.uid))
  }

  ghost predicate AskRests(s: State, uid: nat)
    requires uid in s.asks
  {
    s.asks[uid] < |s.requests| && s.requests[s.asks[uid]].uid == uid
  }

  ghost predicate CacheRests(s: State, k: (nat, nat))
    requires k in s.cache
  {
    Rests(s, k.0, s.cache[k].answer) && (s.cache[k].answer.Waiting? ==> s.cache[k].retry)
  }

  ghost predicate Inv(s: State) {
    && OneInFlight(s)
    && (forall uid :: uid in s.live ==> uid in s.current)
    && (forall uid :: uid in s.asks ==> AskRests(s, uid))
    && (forall i :: 0 <= i < |s.requests| ==> RequestRests(s, i))
    && (forall l :: l in s.running ==> RunningRests(s, s.running[l]))
    && (forall k :: k in s.cache ==> CacheRests(s, k))
  }

  /** Requests are only added and answered; objects only age. */
  ghost predicate Grows(s: State, t: State) {
    && |s.requests| <= |t.requests|
    && (forall i {:trigger t.requests[i]} :: 0 <= i < |s.requests| ==>
          && t.requests[i].uid == s.requests[i].uid && t.requests[i].transition == s.requests[i].transition
          && (s.requests[i].answer.Some? ==> t.requests[i] == s.requests[i]))
    && (forall uid :: uid in s.current ==> uid in t.current && s.current[uid] <= t.current[uid])
    && s.mute <= t.mute
  }

  lemma StepGrows(s: State, v: Event)
    requires Enabled(s, v)
    ensures Grows(s, Step(s, v))
  {
  }

  lemma RestsOn(s: State, t: State, uid: nat, a: Answer)
    requires Grows(s, t) && Rests(s, uid, a)
    ensures Rests(t, uid, a)
  {
    if WasAnswered(s, uid) {
      var i :| 0 <= i < |s.requests| && s.requests[i].uid == uid && s.requests[i].answer == Some(Answered);
      assert t.requests[i] == s.requests[i];
    }
    if WasRefused(s, uid) {
      var i :| 0 <= i < |s.requests| && s.requests[i].uid == uid && s.requests[i].answer == Some(Failed);
      assert t.requests[i] == s.requests[i];
    }
  }

  lemma GoneForGood(s: State, v: Event, uid: nat)
    requires Enabled(s, v) && Gone(s, uid)
    ensures Gone(Step(s, v), uid)
  {
  }

  /** What a request that got its answer lets an entry say. */
  lemma AnswerRests(s: State, i: nat)
    requires Inv(s) && i < |s.requests| && s.requests[i].answer.Some?
    ensures Rests(s, s.requests[i].uid, s.requests[i].answer.value)
  {
    assert RequestRests(s, i);
  }

  lemma RequestsKeep(s: State, v: Event)
    requires Inv(s) && Enabled(s, v)
    ensures var t := Step(s, v); forall i :: 0 <= i < |t.requests| ==> RequestRests(t, i)
  {
    var t := Step(s, v);
    forall i | 0 <= i < |t.requests| ensures RequestRests(t, i) {
      if i < |s.requests| {
        assert RequestRests(s, i);
        if Gone(s, s.requests[i].uid) { GoneForGood(s, v, s.requests[i].uid); }
      } else {
        assert RunningRests(s, s.running[v.list]);
      }
    }
  }

  lemma OneInFlightKeeps(s: State, v: Event)
    requires Inv(s) && Enabled(s, v)
    ensures OneInFlight(Step(s, v))
  {
    var t := Step(s, v);
    forall i, j | 0 <= i < j < |t.requests| && t.requests[i].uid == t.requests[j].uid ensures !(InFlight(t, i) && InFlight(t, j)) {
      if j == |s.requests| {
        var e := s.running[v.list].e;
        assert RequestRests(s, i) && Sends(s, e) && !Gone(s, e.uid);
        if e.uid in s.asks { assert AskRests(s, e.uid); }
      } else {
        assert !(InFlight(s, i) && InFlight(s, j));
      }
    }
  }

  lemma RunningKeeps(s: State, v: Event)
    requires Inv(s) && Enabled(s, v)
    ensures var t := Step(s, v); forall l :: l in t.running ==> RunningRests(t, t.running[l])
  {
    var t := Step(s, v);
    StepGrows(s, v);
    forall l | l in t.running ensures RunningRests(t, t.running[l]) {
      if l in s.running && t.running[l] == s.running[l] {
        assert RunningRests(s, s.running[l]);
        if s.running[l].Read? || s.running[l].Known? { RestsOn(s, t, s.running[l].e.uid, s.running[l].api.answer); }
      } else {
        ChangedRests(s, v, l);
      }
    }
  }

  lemma ChangedRests(s: State, v: Event, l: nat)
    requires Inv(s) && Enabled(s, v) && l in Step(s, v).running
    requires l !in s.running || Step(s, v).running[l] != s.running[l]
    ensures RunningRests(Step(s, v), Step(s, v).running[l])
  {
    var t := Step(s, v);
    if l in s.running {
      var r := s.running[l];
      assert RunningRests(s, r);
      match v {
        case Look(_, _) =>
          var k := (r.e.uid, r.e.transition);
          if k in s.cache { assert CacheRests(s, k); }
          if StandingFailure(s, r.e.uid) { assert AskRests(s, r.e.uid); AnswerRests(s, s.asks[r.e.uid]); }
        case Ask(_, _, _) => if r.e.uid in s.asks { assert AskRests(s, r.e.uid); }
        case Settle(_, patient) => if patient { AnswerRests(s, r.request); }
        case _ =>
      }
    }
  }

  /** Every step keeps the invariant. */
  lemma StepKeeps(s: State, v: Event)
    requires Inv(s) && Enabled(s, v)
    ensures Inv(Step(s, v))
  {
    var t := Step(s, v);
    StepGrows(s, v);
    OneInFlightKeeps(s, v);
    RequestsKeep(s, v);
    RunningKeeps(s, v);
    forall uid | uid in t.asks ensures AskRests(t, uid) {
      if uid in s.asks { assert AskRests(s, uid); }
    }
    forall k | k in t.cache ensures CacheRests(t, k) {
      if k in s.cache && t.cache[k] == s.cache[k] {
        assert CacheRests(s, k);
        RestsOn(s, t, k.0, s.cache[k].answer);
      } else {
        assert RunningRests(s, s.running[v.list]);
        RestsOn(s, t, k.0, t.cache[k].answer);
      }
    }
  }

  // ------------------------------------------------------------ every run

  function RunFrom(start: State, events: seq<Event>): Option<State> {
    if events == [] then Some(start)
    else
      match RunFrom(start, events[..|events| - 1])
      case None => None
      case Some(s) => if Enabled(s, events[|events| - 1]) then Some(Step(s, events[|events| - 1])) else None
  }

  function Run(events: seq<Event>): Option<State> { RunFrom(START, events) }

  lemma {:induction false} EveryRunFrom(start: State, events: seq<Event>)
    requires Inv(start)
    ensures RunFrom(start, events).Some? ==> Inv(RunFrom(start, events).value)
  {
    if events != [] {
      var before, v := events[..|events| - 1], events[|events| - 1];
      EveryRunFrom(start, before);
      var s := RunFrom(start, before);
      if s.Some? && Enabled(s.value, v) { StepKeeps(s.value, v); }
    }
  }

  lemma EveryRun(events: seq<Event>)
    ensures Run(events).Some? ==> Inv(Run(events).value)
  {
    EveryRunFrom(START, events);
  }

  /** In every run an object has at most one first request in flight. */
  lemma AtMostOneInFlight(events: seq<Event>, s: State, i: nat, j: nat)
    requires Run(events) == Some(s) && InFlight(s, i) && InFlight(s, j) && s.requests[i].uid == s.requests[j].uid
    ensures i == j
  {
    EveryRun(events);
    assert i < j ==> !(InFlight(s, i) && InFlight(s, j));
    assert j < i ==> !(InFlight(s, j) && InFlight(s, i));
  }

  // ------------------------------------------------------------ what is asked, and when

  /** The object's last request, if one is kept, has its answer, which is for another transition
      or no verdict. */
  ghost predicate IsSettled(s: State, uid: nat, transition: nat) {
    uid in s.asks && s.asks[uid] < |s.requests| ==>
      var r := s.requests[s.asks[uid]];
      r.answer.Some? && (r.transition != transition || r.answer.value == Waiting)
  }

  /** A request is sent exactly when a list asks an object whose server was reached and names
      something to ask, and whose last request is settled; it is the one kept and waited for. */
  lemma SentExactly(s: State, v: Event)
    requires Enabled(s, v)
    ensures var t := Step(s, v);
            && (|t.requests| > |s.requests| <==>
                  v.Ask? && v.reached && v.askable && IsSettled(s, s.running[v.list].e.uid, s.running[v.list].e.transition))
            && (|t.requests| > |s.requests| ==>
                  var e := s.running[v.list].e;
                  && t.requests == s.requests + [Request(e.uid, e.transition, None)]
                  && t.asks == s.asks[e.uid := |s.requests|] && t.running[v.list] == Waits(e, |s.requests|, false))
  {
  }

  /** A list reads the server of an object that is Ready exactly when the cache has nothing of its
      transition, or something to be retried now; else it says what the cache does. */
  lemma ReadExactly(s: State, l: nat, expired: bool)
    requires Enabled(s, Look(l, expired))
    ensures var e, t := s.running[l].e, Step(s, Look(l, expired));
            && (t.running[l] == Reading(e) <==>
                  e.ready && ((e.uid, e.transition) in s.cache ==> s.cache[(e.uid, e.transition)].retry && expired))
            && (e.ready && t.running[l] != Reading(e) ==>
                  (e.uid, e.transition) in s.cache && t.running[l] == Known(e, s.cache[(e.uid, e.transition)]))
            && (!e.ready ==> t.running[l].Known? && !t.running[l].api.retry && t.running[l].api.answer in {Failed, NotAsked})
  {
  }

  /** What a list that asked has to say when it sent no request: the one kept is waited for; a server
      not reached is asked again later; one that names nothing is not. */
  lemma UnaskedExactly(s: State, l: nat, reached: bool, askable: bool)
    requires Inv(s) && Enabled(s, Ask(l, reached, askable))
    ensures var e, t := s.running[l].e, Step(s, Ask(l, reached, askable));
            && (!IsSettled(s, e.uid, e.transition) ==>
                  e.uid in s.asks && t == s.(running := s.running[l := Waits(e, s.asks[e.uid], !reached)]))
            && (IsSettled(s, e.uid, e.transition) && !reached ==> t == s.(running := s.running[l := Read(e, API(Waiting, true))]))
            && (IsSettled(s, e.uid, e.transition) && reached && !askable ==>
                  t == s.(running := s.running[l := Read(e, API(Skipped, false))], mute := s.mute + {e.uid}))
  {
    var uid := s.running[l].e.uid;
    if uid in s.asks { assert AskRests(s, uid); }
  }

  /** What a list that waited says: the request's answer if it came, to be retried when it is no
      verdict or the server was not reached. */
  lemma WaitedExactly(s: State, l: nat, patient: bool)
    requires Inv(s) && Enabled(s, Settle(l, patient))
    ensures var w, t := s.running[l], Step(s, Settle(l, patient));
            && w.request < |s.requests| && t.running[l].Read? && t.running[l].e == w.e
            && (patient ==> s.requests[w.request].answer == Some(t.running[l].api.answer))
            && (!patient ==> t.running[l].api.answer == Waiting)
            && (t.running[l].api.retry <==> w.retry || t.running[l].api.answer == Waiting)
  {
    assert RunningRests(s, s.running[l]);
  }

  /** A request in flight may come back answered, failed or without a verdict, and is then in flight no more. */
  lemma RepliesExactly(s: State, i: nat, a: Answer)
    ensures Enabled(s, Reply(i, a)) <==> i < |s.requests| && s.requests[i].answer == None && a in {Answered, Failed, Waiting}
    ensures Enabled(s, Reply(i, a)) ==>
              Step(s, Reply(i, a)) == s.(requests := s.requests[i := s.requests[i].(answer := Some(a))])
  {
  }

  /** The rest of a list's way: without an origin the answer is waited for, what was read is kept by
      object and transition, and a list is over when its entry is known or goes. */
  lemma KeptExactly(s: State, l: nat)
    ensures Enabled(s, NoOrigin(l)) <==> l in s.running && s.running[l].Reading?
    ensures Enabled(s, NoOrigin(l)) ==>
              Step(s, NoOrigin(l)) == s.(running := s.running[l := Read(s.running[l].e, API(Waiting, true))])
    ensures Enabled(s, Store(l)) <==> l in s.running && s.running[l].Read?
    ensures Enabled(s, Store(l)) ==>
              var e, t := s.running[l].e, Step(s, Store(l));
              t.cache == s.cache[(e.uid, e.transition) := s.running[l].api] && t.running == s.running[l := Known(e, s.running[l].api)]
    ensures Enabled(s, Finish(l)) <==> l in s.running && (s.running[l].Known? || s.running[l].e.deleting)
    ensures Enabled(s, Finish(l)) ==> Step(s, Finish(l)).running == s.running - {l}
  {
  }

  // ------------------------------------------------------------ forgetting a request in flight

  lemma RunFromNext(start: State, events: seq<Event>, v: Event, s: State)
    requires RunFrom(start, events) == Some(s) && Enabled(s, v)
    ensures RunFrom(start, events + [v]) == Some(Step(s, v))
  {
    assert (events + [v])[..|events|] == events;
  }

  /** A list that did not hold the object forgets its request, whoever may still ask. */
  function Forgotten(s: State, uid: nat): State { s.(asks := s.asks - {uid}) }

  ghost predicate Doubled(s: State, uid: nat) {
    exists i, j :: 0 <= i < j < |s.requests| && s.requests[i].uid == uid && s.requests[j].uid == uid && InFlight(s, i) && InFlight(s, j)
  }

  /** Some run goes on from s to two requests of the object in flight. */
  ghost predicate CanDouble(s: State, uid: nat) {
    exists events :: RunFrom(s, events).Some? && Doubled(RunFrom(s, events).value, uid)
  }

  /** Forgetting a request in flight leads to a second one exactly when somebody may still ask
      the object: it lives, or a list holds it before its request. */
  lemma ForgettingDoubles(events: seq<Event>, s: State, uid: nat)
    requires Run(events) == Some(s) && uid in s.asks && InFlight(s, s.asks[uid])
    ensures CanDouble(Forgotten(s, uid), uid) <==> !Gone(s, uid)
  {
    EveryRun(events);
    var f := Forgotten(s, uid);
    if Gone(s, uid) {
      GoneNeverDoubles(s, uid);
    } else {
      assert AskRests(s, uid) && RequestRests(s, s.asks[uid]);
      var t, l, run := ReadsAgain(f, uid);
      AsksAgain(f, t, uid, s.asks[uid], l, run);
    }
  }

  lemma GoneNeverDoubles(s: State, uid: nat)
    requires Inv(s) && Gone(s, uid)
    ensures !CanDouble(Forgotten(s, uid), uid)
  {
    var v := Forget(s.asks.Keys - {uid});
    assert Step(s, v) == Forgotten(s, uid);
    StepKeeps(s, v);
    forall events | RunFrom(Forgotten(s, uid), events).Some? ensures !Doubled(RunFrom(Forgotten(s, uid), events).value, uid) {
      EveryRunFrom(Forgotten(s, uid), events);
    }
  }

  /** Somebody comes to read the object's server. */
  lemma ReadsAgain(f: State, uid: nat) returns (t: State, l: nat, run: seq<Event>)
    requires uid !in f.asks && uid in f.current && !Gone(f, uid)
    ensures RunFrom(f, run) == Some(t) && l in t.running && t.running[l].Reading? && t.running[l].e.uid == uid
    ensures t.requests == f.requests && t.asks == f.asks
  {
    if uid in f.live {
      l := NewList(f.running.Keys);
      var e := Entry(uid, f.current[uid], true, false, true, Done, Done);
      RunFromNext(f, [], Start(l, e), f);
      t, run := LooksAgain(f, Step(f, Start(l, e)), l, [] + [Start(l, e)]);
    } else {
      l :| l in f.running && MayAsk(f.running[l], uid);
      if f.running[l].Reading? {
        t, run := f, [];
      } else {
        t, run := LooksAgain(f, f, l, []);
      }
    }
  }

  lemma LooksAgain(f: State, s: State, l: nat, before: seq<Event>) returns (t: State, run: seq<Event>)
    requires RunFrom(f, before) == Some(s) && l in s.running && s.running[l].Listed? && s.running[l].e.ready && !s.running[l].e.deleting
    ensures RunFrom(f, run) == Some(t) && l in t.running && t.running[l] == Reading(s.running[l].e)
    ensures t.requests == s.requests && t.asks == s.asks
  {
    var e := s.running[l].e;
    var evicted := Evict({(e.uid, e.transition)});
    var m := Step(s, evicted);
    RunFromNext(f, before, evicted, s);
    RunFromNext(f, before + [evicted], Look(l, false), m);
    t, run := Step(m, Look(l, false)), before + [evicted] + [Look(l, false)];
  }

  /** With no request kept, the list sends one of its own. */
  lemma AsksAgain(f: State, t: State, uid: nat, i: nat, l: nat, run: seq<Event>)
    requires RunFrom(f, run) == Some(t) && l in t.running && t.running[l].Reading? && t.running[l].e.uid == uid
    requires uid !in t.asks && InFlight(t, i) && t.requests[i].uid == uid
    ensures CanDouble(f, uid)
  {
    var v := Ask(l, true, true);
    RunFromNext(f, run, v, t);
    var after := Step(t, v);
    assert after.requests[i] == t.requests[i];
    assert InFlight(after, i) && InFlight(after, |t.requests|) && after.requests[|t.requests|].uid == uid;
    assert Doubled(RunFrom(f, run + [v]).value, uid);
  }

  lemma {:induction false} NewList(lists: set<nat>) returns (l: nat)
    ensures forall m :: m in lists ==> m < l
  {
    if lists == {} { return 0; }
    var m :| m in lists;
    var above := NewList(lists - {m});
    l := Max(above, m + 1);
    forall x | x in lists ensures x < l { assert x == m || x in lists - {m}; }
  }

  // ------------------------------------------------------------ the failure that stands

  /** The kept request of the object is r, and it failed. */
  predicate Stands(s: State, uid: nat, r: nat) {
    StandingFailure(s, uid) && s.asks[uid] == r
  }

  /** A list that reached the server asks for another Ready transition than that of request r. */
  predicate AsksForAnother(s: State, v: Event, uid: nat, r: nat) {
    v.Ask? && v.reached && v.askable && v.list in s.running && r < |s.requests|
    && s.running[v.list].e.uid == uid && s.running[v.list].e.transition != s.requests[r].transition
  }

  /** A list that does not hold the object forgets its request. */
  predicate Forgets(v: Event, uid: nat) { v.Forget? && uid !in v.listed }

  /** A failure is dropped by exactly two steps: its object is forgotten, or another Ready
      transition's request is sent, which is then the one kept. */
  lemma FailureStands(s: State, v: Event, uid: nat, r: nat)
    requires Inv(s) && Enabled(s, v) && Stands(s, uid, r)
    ensures Stands(Step(s, v), uid, r) <==> !Forgets(v, uid) && !AsksForAnother(s, v, uid, r)
    ensures !StandingFailure(Step(s, v), uid) <==> Forgets(v, uid) || AsksForAnother(s, v, uid, r)
    ensures AsksForAnother(s, v, uid, r) ==>
              var e, t := s.running[v.list].e, Step(s, v);
              t.asks[uid] == |s.requests| && t.requests == s.requests + [Request(uid, e.transition, None)]
    ensures Forgets(v, uid) ==> Gone(s, uid)
  {
    assert RequestRests(s, r) && AskRests(s, uid);
  }

  /** The request that replaces a failure is of a later transition when the list found the
      object in the transition it is in. */
  lemma PresentListReplacesByLater(s: State, v: Event, uid: nat, r: nat)
    requires Inv(s) && Enabled(s, v) && Stands(s, uid, r) && AsksForAnother(s, v, uid, r)
    requires s.running[v.list].e.transition == s.current[uid]
    ensures s.running[v.list].e.transition > s.requests[r].transition
  {
    assert RequestRests(s, r) && AskRests(s, uid);
  }

  /** A request once replaced or forgotten is never kept again. */
  lemma DroppedForGood(s: State, v: Event, uid: nat, r: nat)
    requires Inv(s) && Enabled(s, v) && r < |s.requests| && !(uid in s.asks && s.asks[uid] == r)
    ensures var t := Step(s, v); r < |t.requests| && !(uid in t.asks && t.asks[uid] == r)
  {
  }

  /** Step j of the run drops the failure r of the object. */
  predicate DropsAt(events: seq<Event>, j: nat, uid: nat, r: nat)
    requires j < |events|
  {
    Run(events[..j]).Some? && (Forgets(events[j], uid) || AsksForAnother(Run(events[..j]).value, events[j], uid, r))
  }

  predicate Dropped(s: State, uid: nat, r: nat) { r < |s.requests| && !(uid in s.asks && s.asks[uid] == r) }

  lemma StandsOrDropped(s: State, v: Event, uid: nat, r: nat)
    requires Inv(s) && Enabled(s, v) && (Stands(s, uid, r) || Dropped(s, uid, r))
    ensures Stands(Step(s, v), uid, r) || Dropped(Step(s, v), uid, r)
    ensures Stands(Step(s, v), uid, r) <==> Stands(s, uid, r) && !Forgets(v, uid) && !AsksForAnother(s, v, uid, r)
  {
    if Stands(s, uid, r) { FailureStands(s, v, uid, r); } else { DroppedForGood(s, v, uid, r); }
  }

  lemma SamePrefix(events: seq<Event>, last: nat, uid: nat, r: nat)
    requires last <= |events|
    ensures forall j :: 0 <= j < last ==> (DropsAt(events[..last], j, uid, r) <==> DropsAt(events, j, uid, r))
  {
    forall j | 0 <= j < last ensures DropsAt(events[..last], j, uid, r) <==> DropsAt(events, j, uid, r) {
      assert events[..last][..j] == events[..j];
    }
  }

  ghost predicate NoneDrops(events: seq<Event>, i: nat, uid: nat, r: nat) {
    forall j :: i <= j < |events| ==> !DropsAt(events, j, uid, r)
  }

  lemma NoneDropsLast(events: seq<Event>, i: nat, uid: nat, r: nat)
    requires i < |events|
    ensures var last := |events| - 1;
            NoneDrops(events, i, uid, r) <==> NoneDrops(events[..last], i, uid, r) && !DropsAt(events, last, uid, r)
  {
    SamePrefix(events, |events| - 1, uid, r);
  }

  /** Over every run, a failure that stands after i steps stands at the end exactly when no
      step in between forgot its object or asked for another transition of it. */
  lemma {:induction false} FailureStandsThroughout(events: seq<Event>, i: nat, uid: nat, r: nat)
    requires i <= |events| && Run(events).Some?
    requires Run(events[..i]).Some? && Stands(Run(events[..i]).value, uid, r)
    ensures Stands(Run(events).value, uid, r) <==> NoneDrops(events, i, uid, r)
    ensures Stands(Run(events).value, uid, r) || Dropped(Run(events).value, uid, r)
    decreases |events|
  {
    if i == |events| {
      assert events[..i] == events;
    } else {
      var last := |events| - 1;
      assert events[..last][..i] == events[..i];
      FailureStandsThroughout(events[..last], i, uid, r);
      EveryRun(events[..last]);
      NoneDropsLast(events, i, uid, r);
      StandsOrDropped(Run(events[..last]).value, events[last], uid, r);
    }
  }

  /** While a failure stands and nothing else is asked, an object that is not Ready says so. */
  lemma FailureIsTold(s: State, l: nat, expired: bool)
    requires l in s.running && s.running[l].Listed? && !s.running[l].e.ready && !s.running[l].e.deleting
    ensures var t := Step(s, Look(l, expired));
            t.running[l].Known? && (t.running[l].api.answer == Failed <==> StandingFailure(s, s.running[l].e.uid))
  {
  }

  // ------------------------------------------------------------ what the entry says

  /** applyAnswer. */
  function ApplyAnswer(e: Entry, a: Answer): Entry {
    if e.deleting || !e.full || (!e.ready && !a.Failed?) then e
    else match a
      case Skipped => e
      case Answered => e.(readyStep := Done)
      case Failed => e.(readyStep := FailedStep, ready := false)
      case _ => e.(routing := InProgress, readyStep := Pending, ready := false)
  }

  /** What an answer makes of an entry: only one with every step that is not being deleted changes,
      and, once not Ready, only by a failure. An answer ends the ready step; a failure fails it; no
      answer yet puts the entry back to routing. The last two leave it not Ready. */
  lemma AnswerSays(e: Entry, a: Answer)
    ensures var after := ApplyAnswer(e, a);
            var changes := e.full && !e.deleting && (e.ready || a == Failed) && a != Skipped;
            && (!changes ==> after == e)
            && (after.uid, after.transition, after.full, after.deleting) == (e.uid, e.transition, e.full, e.deleting)
            && (changes && a == Answered ==> after.readyStep == Done && after.routing == e.routing && after.ready)
            && (changes && a == Failed ==> after.readyStep == FailedStep && after.routing == e.routing && !after.ready)
            && (changes && a in {Waiting, NotAsked} ==> after.readyStep == Pending && after.routing == InProgress && !after.ready)
  {
  }

  /** An entry with a full timeline stays Ready only if a request of the object was answered,
      or its server named nothing to ask; the failed step tells a request that failed. */
  lemma ReadyRests(events: seq<Event>, s: State, l: nat)
    requires Run(events) == Some(s) && l in s.running && s.running[l].Known?
    ensures var e, a := s.running[l].e, s.running[l].api.answer;
            var after := ApplyAnswer(e, a);
            e.full && !e.deleting ==>
              && (after.ready <==> e.ready && (a.Answered? || a.Skipped?))
              && (after.ready ==> WasAnswered(s, e.uid) || e.uid in s.mute)
              && (e.readyStep != FailedStep && after.readyStep == FailedStep ==> WasRefused(s, e.uid) && !after.ready)
  {
    EveryRun(events);
    assert RunningRests(s, s.running[l]);
  }

  // ------------------------------------------------------------ where it fails

  function SampleEntry(transition: nat): Entry { Entry(7, transition, true, false, true, Done, Done) }

  lemma RunNext(events: seq<Event>, v: Event, s: State)
    requires Run(events) == Some(s) && Enabled(s, v)
    ensures Run(events + [v]) == Some(Step(s, v))
  {
    RunFromNext(START, events, v, s);
  }

  const SLOW := Reading(SampleEntry(0))
  const FAILED := Request(7, 1, Some(Failed))

  /** A list finds the object in its first transition and is slow; a second one finds it in
      the next transition, and will ask. */
  function TwoLists(): State {
    State([], map[], map[], map[0 := SLOW, 1 := Reading(SampleEntry(1))], map[7 := 1], {7}, {})
  }

  lemma RunToTwoLists() returns (events: seq<Event>)
    ensures Run(events) == Some(TwoLists())
  {
    var s1 := START.(current := map[7 := 0], live := {7});
    assert Step(START, Born(7)) == s1;
    RunNext([], Born(7), START);
    var s2 := s1.(running := map[0 := Listed(SampleEntry(0))]);
    assert Step(s1, Start(0, SampleEntry(0))) == s2;
    events := [] + [Born(7)];
    RunNext(events, Start(0, SampleEntry(0)), s1);
    var s3 := s1.(running := map[0 := SLOW]);
    assert Step(s2, Look(0, false)) == s3;
    events := events + [Start(0, SampleEntry(0))];
    RunNext(events, Look(0, false), s2);
    events := events + [Look(0, false)];
    events := TurnedAndListed(events);
  }

  lemma TurnedAndListed(before: seq<Event>) returns (events: seq<Event>)
    requires Run(before) == Some(State([], map[], map[], map[0 := SLOW], map[7 := 0], {7}, {}))
    ensures Run(events) == Some(TwoLists())
  {
    var s3 := State([], map[], map[], map[0 := SLOW], map[7 := 0], {7}, {});
    var s4 := s3.(current := map[7 := 1]);
    assert Step(s3, Turned(7)) == s4;
    RunNext(before, Turned(7), s3);
    events := before + [Turned(7)];
    var s5 := s4.(running := map[0 := SLOW, 1 := Listed(SampleEntry(1))]);
    assert Step(s4, Start(1, SampleEntry(1))) == s5;
    RunNext(events, Start(1, SampleEntry(1)), s4);
    events := events + [Start(1, SampleEntry(1))];
    assert Step(s5, Look(1, false)) == TwoLists();
    RunNext(events, Look(1, false), s5);
    events := events + [Look(1, false)];
  }

  /** The slow list asks after the other's request failed: the failure of the later transition
      is dropped by an earlier one's request. */
  lemma SlowListDropsTheFailure() returns (before: seq<Event>, events: seq<Event>, s: State)
    ensures Run(before).Some? && StandingFailure(Run(before).value, 7) && Run(before).value.requests == [FAILED]
    ensures events == before + [Ask(0, true, true)] && Run(events) == Some(s)
    ensures s == State([FAILED, Request(7, 0, None)], map[7 := 1], map[],
                       map[0 := Waits(SampleEntry(0), 1, false), 1 := Waits(SampleEntry(1), 0, false)], map[7 := 1], {7}, {})
  {
    before := RunToTwoLists();
    var s1 := TwoLists().(requests := [Request(7, 1, None)], asks := map[7 := 0],
                          running := map[0 := SLOW, 1 := Waits(SampleEntry(1), 0, false)]);
    assert Step(TwoLists(), Ask(1, true, true)) == s1;
    RunNext(before, Ask(1, true, true), TwoLists());
    before := before + [Ask(1, true, true)];
    var s2 := s1.(requests := [FAILED]);
    assert Step(s1, Reply(0, Failed)) == s2;
    RunNext(before, Reply(0, Failed), s1);
    before := before + [Reply(0, Failed)];
    RunNext(before, Ask(0, true, true), s2);
    events, s := before + [Ask(0, true, true)], Step(s2, Ask(0, true, true));
  }

  /** Forgetting the request of a live object lets the next list send a second one beside it. */
  lemma StaleForgetDoubles() returns (events: seq<Event>, s: State)
    ensures Run(events) == Some(s) && InFlight(s, 1) && s.requests[1].uid == 7 && !Enabled(s, Forget({}))
    ensures var forgotten := s.(asks := map[], running := s.running[2 := Reading(SampleEntry(1))]);
            var after := Step(forgotten, Ask(2, true, true));
            InFlight(after, 1) && InFlight(after, 2) && after.requests[1].uid == after.requests[2].uid
  {
    var before;
    before, events, s := SlowListDropsTheFailure();
    assert 7 in s.asks && !Gone(s, 7);
  }

  /** So does forgetting the request of a dead object that a list still reads. */
  lemma ReadForgetDoubles() returns (events: seq<Event>, s: State)
    ensures Run(events) == Some(s) && InFlight(s, 0) && 7 !in s.live && !Enabled(s, Forget({}))
    ensures 0 in s.running && s.running[0] == SLOW
    ensures var after := Step(Forgotten(s, 7), Ask(0, true, true));
            InFlight(after, 0) && InFlight(after, 1) && after.requests[0].uid == after.requests[1].uid == 7
  {
    events := RunToTwoLists();
    var s1 := TwoLists().(requests := [Request(7, 1, None)], asks := map[7 := 0],
                          running := map[0 := SLOW, 1 := Waits(SampleEntry(1), 0, false)]);
    assert Step(TwoLists(), Ask(1, true, true)) == s1;
    RunNext(events, Ask(1, true, true), TwoLists());
    events := events + [Ask(1, true, true)];
    RunNext(events, Died(7), s1);
    events, s := events + [Died(7)], Step(s1, Died(7));
    assert MayAsk(s.running[0], 7);
  }
}
