/** The driver's settings, resolved from the cluster and kept for a while
    (internal/backend/kserve/config.go). */
module Settings {
  import opened Basics

  /** A resolve's result, as far as how long it stands goes; id tells it from any other. */
  datatype Settings = Settings(
    id: nat,
    discoveryFound: bool, discoveryError: string,   // the discovery document
    poolNamed: bool, instances: nat,                // its GPU pool's selector, and known sizes
    servingError: string, llmServed: bool, controlPlane: string)

  datatype Options = Options(discoveryTTL: int, configured: bool)

  const SECOND := 1_000_000_000
  const DISCOVERY_ABSENT_TTL := 5 * SECOND
  const POOL_UNNAMED_TTL := DISCOVERY_ABSENT_TTL
  const CONTROL_PLANE_ABSENT_TTL := DISCOVERY_ABSENT_TTL

  predicate DiscoveryAbsent(o: Options, s: Settings) { o.configured && !s.discoveryFound && s.discoveryError == "" }

  predicate PoolUnnamed(s: Settings) { s.discoveryFound && !s.poolNamed && s.instances > 0 }

  predicate ControlPlaneAbsent(s: Settings) { s.servingError == "" && (!s.llmServed || s.controlPlane == "") }

  predicate DiscoveryPending(o: Options, s: Settings) { DiscoveryAbsent(o, s) || PoolUnnamed(s) }

  /** Settings of that age are within every time they may stand for. */
  predicate Stands(o: Options, s: Settings, age: int) {
    && age < o.discoveryTTL
    && (DiscoveryAbsent(o, s) ==> age < DISCOVERY_ABSENT_TTL)
    && (PoolUnnamed(s) ==> age < POOL_UNNAMED_TTL)
    && (ControlPlaneAbsent(s) ==> age < CONTROL_PLANE_ABSENT_TTL)
  }

  /** Five seconds for what may be there soon: a discovery document, a GPU pool whose sizes it tells
      but not its name, a control plane; the configured time for anything else. */
  lemma StandsSays(o: Options, s: Settings, age: int)
    ensures Stands(o, s, age) <==>
              && age < o.discoveryTTL
              && (age >= 5_000_000_000 ==>
                    && (!o.configured || s.discoveryFound || s.discoveryError != "")
                    && (!s.discoveryFound || s.poolNamed || s.instances == 0)
                    && (s.servingError != "" || (s.llmServed && s.controlPlane != "")))
    ensures DiscoveryPending(o, s) <==>
              (o.configured && !s.discoveryFound && s.discoveryError == "") || (s.discoveryFound && !s.poolNamed && s.instances > 0)
  {
  }

  /** What a resolve would return if the call made one: its settings, and whether it failed. */
  datatype Resolve = Resolve(result: Settings, failed: bool)

  class Config {
    const opts: Options
    var cached: Option<Settings>
    var fetchedAt: int

    constructor (opts: Options)
      ensures this.opts == opts && cached == None
    {
      this.opts, cached, fetchedAt := opts, None, 0;
    }

    /** fresh: one time to live, the least that applies. */
    method Fresh(now: int) returns (r: bool)
      ensures r <==> cached.Some? && Stands(opts, cached.value, now - fetchedAt)
    {
      if cached.None? { return false; }
      var ttl := opts.discoveryTTL;
      if DiscoveryAbsent(opts, cached.value) { ttl := Min(ttl, DISCOVERY_ABSENT_TTL); }
      if PoolUnnamed(cached.value) { ttl := Min(ttl, POOL_UNNAMED_TTL); }
      if ControlPlaneAbsent(cached.value) { ttl := Min(ttl, CONTROL_PLANE_ABSENT_TTL); }
      r := now - fetchedAt < ttl;
    }

    /** refresh: the settings replaced only by a resolve that succeeded. */
    method Refresh(later: int, res: Resolve) returns (s: Settings)
      modifies this
      ensures s == res.result
      ensures cached == if res.failed then old(cached) else Some(res.result)
      ensures fetchedAt == if res.failed then old(fetchedAt) else later
    {
      s := res.result;
      if !res.failed { cached, fetchedAt := Some(s), later; }
    }

    /** settings; later is the time its resolve, if any, ends. */
    method Get(now: int, later: int, res: Resolve) returns (s: Settings, asked: bool)
      modifies this
      ensures Answers(old(cached), old(fetchedAt), now, later, res, s, asked)
      ensures asked <==> !(old(cached).Some? && Stands(opts, old(cached).value, now - old(fetchedAt)))
    {
      var stands := Fresh(now);
      if stands { return cached.value, false; }
      s := Refresh(later, res);
      if res.failed && cached.Some? { s := cached.value; }
      asked := true;
    }

    /** settingsForLoad: a missing control plane is looked up again. */
    method GetForLoad(now: int, later: int, res: Resolve) returns (s: Settings, asked: bool)
      modifies this
      ensures Answers(old(cached), old(fetchedAt), now, later, res, s, asked)
      ensures s.servingError == "" && (!s.llmServed || s.controlPlane == "") ==> asked
    {
      var stands := Fresh(now);
      if stands && !ControlPlaneAbsent(cached.value) { return cached.value, false; }
      s := Refresh(later, res);
      if res.failed && cached.Some? { s := cached.value; }
      asked := true;
    }

    /** recheckDiscovery: whether a re-read says more than the settings kept did. */
    method Recheck(later: int, res: Resolve) returns (more: bool, asked: bool)
      modifies this
      ensures asked <==> opts.configured && (old(cached).Some? ==> DiscoveryPending(opts, old(cached).value))
      ensures asked && !res.failed ==> cached == Some(res.result) && fetchedAt == later
      ensures !asked || res.failed ==> cached == old(cached) && fetchedAt == old(fetchedAt) && !more
      ensures more ==> asked && cached.Some? && cached.value.discoveryFound
      ensures more && old(cached).Some? ==>
                DiscoveryPending(opts, old(cached).value)
                && (DiscoveryAbsent(opts, old(cached).value) || (PoolUnnamed(old(cached).value) && !PoolUnnamed(cached.value)))
      ensures asked && !res.failed && !DiscoveryPending(opts, res.result) && res.result.discoveryError == "" ==> more
    {
      if !opts.configured || (cached.Some? && !DiscoveryPending(opts, cached.value)) { return false, false; }
      var wasFound := cached.Some? && cached.value.discoveryFound;
      var s := Refresh(later, res);
      return !res.failed && s.discoveryFound && (!wasFound || !PoolUnnamed(s)), true;
    }

    ghost predicate Answers(was: Option<Settings>, fetched: int, now: int, later: int, res: Resolve, s: Settings, asked: bool)
      reads this
    {
      IsAnswer(opts, was, fetched, now, later, res, s, asked, cached, fetchedAt)
    }

    /** One call. */
    method ServeOne(c: Call) returns (a: Answer)
      modifies this
      ensures Served(opts, old(cached), old(fetchedAt), c, a, cached, fetchedAt)
    {
      var s, asked, more := c.res.result, false, false;
      match c.kind {
        case Plain => s, asked := Get(c.now, c.later, c.res);
        case ForLoad => s, asked := GetForLoad(c.now, c.later, c.res);
        case Recheck => more, asked := Recheck(c.later, c.res);
      }
      a := Answer(s, asked);
    }

    /** A run of calls: what each answered, and whether it resolved. */
    method Serve(calls: seq<Call>) returns (answers: seq<Answer>)
      requires cached == None && InOrder(calls)
      modifies this
      ensures |answers| == |calls|
      ensures forall i :: 0 <= i < |calls| ==> IsRight(opts, calls, answers, i)
    {
      answers := [];
      ghost var last := -1;
      for i := 0 to |calls|
        invariant |answers| == i
        invariant Kept(calls, answers, last, cached, fetchedAt)
        invariant forall k :: 0 <= k < i ==> IsRight(opts, calls, answers, k)
      {
        ghost var before, was, fetched := answers, cached, fetchedAt;
        var a := ServeOne(calls[i]);
        answers := answers + [a];
        Answered(opts, calls, before, a, last, was, fetched, cached, fetchedAt);
        if a.asked && !calls[i].res.failed { last := i; }
      }
    }
  }

  datatype Kind = Plain | ForLoad | Recheck

  datatype Call = Call(kind: Kind, now: int, later: int, res: Resolve)

  /** What a call answered, but for a recheck, and whether it resolved. */
  datatype Answer = Answer(settings: Settings, asked: bool)

  /** The clock does not go back, and the calls hold the lock one after another. */
  predicate InOrder(calls: seq<Call>) {
    (forall i :: 0 <= i < |calls| ==> calls[i].now <= calls[i].later) &&
    forall i, j :: 0 <= i < j < |calls| ==> calls[i].later <= calls[j].now
  }

  predicate Succeeded(calls: seq<Call>, answers: seq<Answer>, k: nat)
    requires k < |answers| <= |calls|
  {
    answers[k].asked && !calls[k].res.failed
  }

  /** The call at k is the last up to i that resolved with success. */
  ghost predicate IsLast(calls: seq<Call>, answers: seq<Answer>, k: nat, i: nat)
    requires k <= i < |answers| <= |calls|
  {
    Succeeded(calls, answers, k) && forall m :: k < m <= i ==> !Succeeded(calls, answers, m)
  }

  /** Once a resolve succeeded, an answer is what the last such resolve returned. */
  ghost predicate IsLastSuccess(calls: seq<Call>, answers: seq<Answer>, i: nat)
    requires i < |answers| <= |calls|
  {
    !calls[i].kind.Recheck? && (exists j :: 0 <= j <= i && Succeeded(calls, answers, j)) ==>
      exists k :: 0 <= k <= i && IsLast(calls, answers, k, i) && answers[i].settings == calls[k].res.result
  }

  /** An answer given without a resolve is no older than its settings may stand. */
  ghost predicate IsYoung(o: Options, calls: seq<Call>, answers: seq<Answer>, i: nat)
    requires i < |answers| <= |calls|
  {
    !calls[i].kind.Recheck? && !answers[i].asked ==>
      exists k :: 0 <= k <= i && IsLast(calls, answers, k, i) && answers[i].settings == calls[k].res.result
                  && calls[k].later <= calls[i].now && Stands(o, answers[i].settings, calls[i].now - calls[k].later)
  }

  ghost predicate IsRight(o: Options, calls: seq<Call>, answers: seq<Answer>, i: nat)
    requires i < |answers| <= |calls|
  {
    && IsLastSuccess(calls, answers, i) && IsYoung(o, calls, answers, i)
    && (calls[i].kind.ForLoad? && ControlPlaneAbsent(answers[i].settings) ==> answers[i].asked)
  }

  /** An answer without a resolve is the settings kept while they stand; with one it is the
      resolve's, or, when it failed, the settings kept, if any. */
  ghost predicate IsAnswer(o: Options, was: Option<Settings>, fetched: int, now: int, later: int, res: Resolve,
                           s: Settings, asked: bool, cached: Option<Settings>, fetchedAt: int)
  {
    && (!asked ==> was.Some? && s == was.value && Stands(o, s, now - fetched))
    && (asked && !res.failed ==> s == res.result)
    && (asked && res.failed ==> s == (if was.Some? then was.value else res.result))
    && Remembers(was, fetched, later, res, asked, cached, fetchedAt)
  }

  /** Only a resolve that succeeded is remembered. */
  predicate Remembers(was: Option<Settings>, fetched: int, later: int, res: Resolve, asked: bool, cached: Option<Settings>, fetchedAt: int) {
    if asked && !res.failed then cached == Some(res.result) && fetchedAt == later else cached == was && fetchedAt == fetched
  }

  ghost predicate Served(o: Options, was: Option<Settings>, fetched: int, c: Call, a: Answer, cached: Option<Settings>, fetchedAt: int) {
    && Remembers(was, fetched, c.later, c.res, a.asked, cached, fetchedAt)
    && (!c.kind.Recheck? ==> IsAnswer(o, was, fetched, c.now, c.later, c.res, a.settings, a.asked, cached, fetchedAt))
    && (c.kind.ForLoad? && ControlPlaneAbsent(a.settings) ==> a.asked)
  }

  /** last is the last call that resolved with success, -1 for none, and is what is kept. */
  ghost predicate Kept(calls: seq<Call>, answers: seq<Answer>, last: int, cached: Option<Settings>, fetchedAt: int)
    requires |answers| <= |calls|
  {
    && -1 <= last < |answers|
    && (if last < 0 then cached == None
        else Succeeded(calls, answers, last) && cached == Some(calls[last].res.result) && fetchedAt == calls[last].later)
    && forall k :: last < k < |answers| ==> !Succeeded(calls, answers, k)
  }

  lemma Answered(o: Options, calls: seq<Call>, before: seq<Answer>, a: Answer, last: int,
                 was: Option<Settings>, fetched: int, cached: Option<Settings>, fetchedAt: int)
    requires |before| < |calls| && InOrder(calls)
    requires Kept(calls, before, last, was, fetched)
    requires forall k :: 0 <= k < |before| ==> IsRight(o, calls, before, k)
    requires Served(o, was, fetched, calls[|before|], a, cached, fetchedAt)
    ensures var i, answers := |before|, before + [a];
            && Kept(calls, answers, if a.asked && !calls[i].res.failed then i else last, cached, fetchedAt)
            && forall k :: 0 <= k <= i ==> IsRight(o, calls, answers, k)
  {
    var i, answers := |before|, before + [a];
    var last' := if a.asked && !calls[i].res.failed then i else last;
    assert forall k :: 0 <= k < i ==> (Succeeded(calls, answers, k) <==> Succeeded(calls, before, k));
    assert Kept(calls, answers, last', cached, fetchedAt);
    forall k | 0 <= k < i ensures IsRight(o, calls, answers, k) {
      assert IsRight(o, calls, before, k);
      AnswersExtend(o, calls, before, answers, k);
    }
    assert last' >= 0 ==> IsLast(calls, answers, last', i);
    assert IsRight(o, calls, answers, i);
  }

  lemma AnswersExtend(o: Options, calls: seq<Call>, before: seq<Answer>, after: seq<Answer>, i: nat)
    requires i < |before| <= |after| <= |calls| && forall k :: 0 <= k < |before| ==> after[k] == before[k]
    requires IsLastSuccess(calls, before, i) && IsYoung(o, calls, before, i)
    ensures IsLastSuccess(calls, after, i) && IsYoung(o, calls, after, i)
  {
    forall k | 0 <= k <= i ensures Succeeded(calls, before, k) <==> Succeeded(calls, after, k) {}
    forall k | 0 <= k <= i ensures IsLast(calls, before, k, i) <==> IsLast(calls, after, k, i) {}
  }
}
