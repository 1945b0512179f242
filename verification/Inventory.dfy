/** The cache scans kept per node (internal/backend/kserve/inventory.go): one scan of a node
    at a time however many readers ask, and what a failed one leaves. */
module Inventory {
  import opened Basics

  datatype Snapshot = Snapshot(node: string, entries: seq<string>, scannedAt: int, failed: bool)

  /** What a scan returned; node is the one it ran on, "" for the one asked. */
  datatype Outcome = Found(node: string, entries: seq<string>) | Failure(node: string)

  type Snaps = map<string, Snapshot>
  type Inflight = map<string, nat>     // the channel the scan of a node closes

  predicate Young(s: Snapshot, now: int, ttl: int) { now - s.scannedAt < ttl }

  datatype Entered = Reused(snap: Snapshot) | Busy(channel: nat) | MustScan

  /** snapshot's first critical section. */
  function Enter(snaps: Snaps, inflight: Inflight, node: string, now: int, ttl: int, force: bool): Entered {
    if node in snaps && !force && Young(snaps[node], now, ttl) then Reused(snaps[node])
    else if node in inflight then Busy(inflight[node])
    else MustScan
  }

  /** What snapshot stores of a scan: a failed one keeps the entries, and their time, of the last. */
  function Kept(snaps: Snaps, node: string, now: int, o: Outcome): Snapshot {
    var name := if o.node != "" then o.node else node;
    match o
    case Found(_, entries) => Snapshot(name, entries, now, false)
    case Failure(_) =>
      if node in snaps then Snapshot(name, snaps[node].entries, snaps[node].scannedAt, true) else Snapshot(name, [], now, true)
  }

  class Inventory {
    var snaps: Snaps
    var inflight: Inflight
    var channels: nat       // those made so far

    /** The first critical section; a reader that scans has its channel recorded. */
    method Begin(node: string, now: int, ttl: int, force: bool) returns (r: Entered, channel: nat)
      modifies this`inflight, this`channels
      ensures r == Enter(snaps, old(inflight), node, now, ttl, force)
      ensures r.MustScan? ==> channel == old(channels) && channels == channel + 1 && inflight == old(inflight)[node := channel]
      ensures !r.MustScan? ==> inflight == old(inflight) && channels == old(channels)
    {
      channel := channels;
      if node in snaps && !force && Young(snaps[node], now, ttl) { return Reused(snaps[node]), channel; }
      if node in inflight { return Busy(inflight[node]), channel; }
      inflight, channels := inflight[node := channels], channels + 1;
      r := MustScan;
    }

    /** The second one. */
    method End(node: string, now: int, o: Outcome) returns (snap: Snapshot)
      modifies this`snaps, this`inflight
      ensures snap == Kept(old(snaps), node, now, o)
      ensures snaps == old(snaps)[node := snap] && inflight == old(inflight) - {node}
    {
      snap := Snapshot(node, [], now, o.Failure?);
      if o.node != "" { snap := snap.(node := o.node); }
      if o.Failure? {
        if node in snaps { snap := snap.(entries := snaps[node].entries, scannedAt := snaps[node].scannedAt); }
      } else {
        snap := snap.(entries := o.entries);
      }
      snaps, inflight := snaps[node := snap], inflight - {node};
    }

    /** fresh: the node's scan when younger than ttl. */
    method Fresh(node: string, now: int, ttl: int) returns (r: Option<Snapshot>)
      ensures r.Some? ==> node in snaps && r.value == snaps[node] && now - r.value.scannedAt < ttl
      ensures r.None? ==> node in snaps ==> now - snaps[node].scannedAt >= ttl
    {
      if node in snaps && Young(snaps[node], now, ttl) { return Some(snaps[node]); }
      r := None;
    }

    /** last: the node's scan whatever its age, an empty one without any. */
    method Last(node: string) returns (r: Snapshot)
      ensures r.node != node || r.entries != [] ==> node in snaps && r == snaps[node]
      ensures node in snaps ==> r == snaps[node]
    {
      r := if node in snaps then snaps[node] else Snapshot(node, [], 0, false);
    }
  }

  // ------------------------------------------------------------ the readers

  /** A reader of a node: about to enter, waiting on a scan's channel, or scanning; epoch is
      the invalidations there were when its scan began. */
  datatype Reader =
    | Entering(node: string, ttl: int, force: bool)
    | Waiting(node: string, ttl: int, channel: nat)
    | Scanning(node: string, channel: nat, epoch: nat)
    | Answered(node: string, snap: Snapshot)
    | CalledOff(node: string)

  /** A finished scan that succeeded, since the last invalidation. */
  datatype Success = Success(entries: seq<string>, at: int, epoch: nat)

  datatype State = State(
    now: int,
    snaps: Snaps,
    inflight: Inflight,
    channels: nat,
    readers: map<nat, Reader>,
    owner: map<string, nat>,          // the reader that put a node in flight
    successes: map<string, Success>,  // the last success of each node since the last invalidation
    epoch: nat,
    held: set<string>)                // the nodes that were being scanned at the last invalidation

  const START := State(0, map[], map[], 0, map[], map[], map[], 0, {})

  datatype Event =
    | Tick(to: int)
    | Arrive(reader: nat, node: string, ttl: int, force: bool)
    | Enters(reader: nat)
    | Wakes(reader: nat)         // the channel it waits on is closed
    | GivesUp(reader: nat)       // its context ended
    | ScanEnds(reader: nat, o: Outcome)
    | Invalidates

  predicate Enabled(s: State, v: Event) {
    match v
    case Tick(to) => s.now <= to
    case Arrive(r, _, _, _) => r !in s.readers
    case Enters(r) => r in s.readers && s.readers[r].Entering?
    case Wakes(r) => r in s.readers && s.readers[r].Waiting? && Closed(s, s.readers[r].channel)
    case GivesUp(r) => r in s.readers && s.readers[r].Waiting?
    case ScanEnds(r, _) => r in s.readers && s.readers[r].Scanning?
    case Invalidates => true
  }

  function Step(s: State, v: Event): State
    requires Enabled(s, v)
  {
    match v
    case Tick(to) => s.(now := to)
    case Arrive(r, node, ttl, force) => s.(readers := s.readers[r := Entering(node, ttl, force)])
    case Enters(r) =>
      var e := s.readers[r];
      (match Enter(s.snaps, s.inflight, e.node, s.now, e.ttl, e.force)
       case Reused(snap) => s.(readers := s.readers[r := Answered(e.node, snap)])
       case Busy(channel) => s.(readers := s.readers[r := Waiting(e.node, e.ttl, channel)])
       case MustScan => s.(readers := s.readers[r := Scanning(e.node, s.channels, s.epoch)],
                        inflight := s.inflight[e.node := s.channels], channels := s.channels + 1,
                        owner := s.owner[e.node := r]))
    case Wakes(r) => s.(readers := s.readers[r := Entering(s.readers[r].node, s.readers[r].ttl, false)])
    case GivesUp(r) => s.(readers := s.readers[r := CalledOff(s.readers[r].node)])
    case ScanEnds(r, o) =>
      var node := s.readers[r].node;
      var snap := Kept(s.snaps, node, s.now, o);
      s.(snaps := s.snaps[node := snap], inflight := s.inflight - {node}, owner := s.owner - {node},
         readers := s.readers[r := Answered(node, snap)],
         successes := if o.Found? then s.successes[node := Success(o.entries, s.now, s.readers[r].epoch)] else s.successes)
    case Invalidates => s.(snaps := map[], successes := map[], epoch := s.epoch + 1, held := s.inflight.Keys)
  }

  // ------------------------------------------------------------ the invariant

  predicate IsScanning(s: State, r: nat, node: string) {
    r in s.readers && s.readers[r].Scanning? && s.readers[r].node == node
  }

  /** A node is in flight exactly while its owner scans it, and no other reader does. */
  ghost predicate SingleFlight(s: State) {
    && s.owner.Keys == s.inflight.Keys
    && (forall n :: n in s.owner ==> IsScanning(s, s.owner[n], n) && s.readers[s.owner[n]].channel == s.inflight[n])
    && (forall r :: r in s.readers && s.readers[r].Scanning? ==> s.readers[r].node in s.owner && s.owner[s.readers[r].node] == r)
  }

  predicate Closed(s: State, channel: nat) { forall n :: n in s.inflight ==> s.inflight[n] != channel }

  /** Each scan closes a channel of its own. */
  ghost predicate OwnChannels(s: State) {
    && (forall n :: n in s.inflight ==> s.inflight[n] < s.channels)
    && (forall m, n :: m in s.inflight && n in s.inflight && s.inflight[m] == s.inflight[n] ==> m == n)
  }

  /** A waiting reader waits on a scan of its node that is under way, or may wake. */
  ghost predicate NoLostWake(s: State) {
    forall r :: r in s.readers && s.readers[r].Waiting? ==>
      s.readers[r].channel < s.channels && (Closed(s, s.readers[r].channel) || Awaits(s, s.readers[r]))
  }

  predicate Awaits(s: State, w: Reader)
    requires w.Waiting?
  {
    w.node in s.inflight && s.inflight[w.node] == w.channel
  }

  /** The stored scan has the last success's entries and time, or none when every scan failed. */
  ghost predicate KeepsTheLast(s: State) {
    && (forall n :: n in s.successes ==> n in s.snaps && s.snaps[n].entries == s.successes[n].entries
                                         && s.snaps[n].scannedAt == s.successes[n].at)
    && (forall n :: n in s.snaps && n !in s.successes ==> s.snaps[n].entries == [] && s.snaps[n].failed)
    && (forall n :: n in s.snaps ==> s.snaps[n].scannedAt <= s.now)
  }

  /** A stored success was begun after the last invalidation, unless its node was being
      scanned when it came. */
  ghost predicate Epochs(s: State) {
    && (forall n :: n in s.successes ==> s.successes[n].epoch == s.epoch || n in s.held)
    && (forall r :: r in s.readers && s.readers[r].Scanning? ==>
          s.readers[r].epoch <= s.epoch && (s.readers[r].epoch < s.epoch ==> s.readers[r].node in s.held))
  }

  ghost predicate Inv(s: State) { SingleFlight(s) && OwnChannels(s) && NoLostWake(s) && KeepsTheLast(s) && Epochs(s) }

  lemma SingleFlightKeeps(s: State, v: Event)
    requires SingleFlight(s) && Enabled(s, v)
    ensures SingleFlight(Step(s, v))
  {
    if v.Enters? { EntersAlone(s, v); } else if v.ScanEnds? { ScanEndsAlone(s, v); }
  }

  lemma EntersAlone(s: State, v: Event)
    requires SingleFlight(s) && Enabled(s, v) && v.Enters?
    ensures SingleFlight(Step(s, v))
  {
  }

  lemma ScanEndsAlone(s: State, v: Event)
    requires SingleFlight(s) && Enabled(s, v) && v.ScanEnds?
    ensures SingleFlight(Step(s, v))
  {
  }

  lemma OwnChannelsKeeps(s: State, v: Event)
    requires OwnChannels(s) && Enabled(s, v)
    ensures OwnChannels(Step(s, v))
  {
  }

  lemma ClosedForGood(s: State, v: Event, channel: nat)
    requires Enabled(s, v) && Closed(s, channel) && channel < s.channels
    ensures Closed(Step(s, v), channel)
  {
  }

  lemma AwaitsOrCloses(s: State, v: Event, w: Reader)
    requires OwnChannels(s) && Enabled(s, v) && w.Waiting? && Awaits(s, w)
    requires v.Enters? ==> s.readers[v.reader].node in s.inflight ==> Step(s, v).inflight == s.inflight
    ensures Awaits(Step(s, v), w) || Closed(Step(s, v), w.channel)
  {
    if v.ScanEnds? && s.readers[v.reader].node == w.node { assert Closed(Step(s, v), w.channel); }
  }

  lemma NoLostWakeKeeps(s: State, v: Event)
    requires OwnChannels(s) && NoLostWake(s) && Enabled(s, v)
    ensures NoLostWake(Step(s, v))
  {
    var t := Step(s, v);
    forall r | r in t.readers && t.readers[r].Waiting?
      ensures t.readers[r].channel < t.channels && (Closed(t, t.readers[r].channel) || Awaits(t, t.readers[r]))
    {
      if r in s.readers && s.readers[r] == t.readers[r] {
        if Closed(s, t.readers[r].channel) { ClosedForGood(s, v, t.readers[r].channel); } else { AwaitsOrCloses(s, v, t.readers[r]); }
      }
    }
  }

  lemma KeepsTheLastKeeps(s: State, v: Event)
    requires KeepsTheLast(s) && Enabled(s, v)
    ensures KeepsTheLast(Step(s, v))
  {
    if v.ScanEnds? { ScanEndsKeepsTheLast(s, v); }
  }

  lemma ScanEndsKeepsTheLast(s: State, v: Event)
    requires KeepsTheLast(s) && Enabled(s, v) && v.ScanEnds?
    ensures KeepsTheLast(Step(s, v))
  {
  }

  lemma EpochsKeeps(s: State, v: Event)
    requires SingleFlight(s) && Epochs(s) && Enabled(s, v)
    ensures Epochs(Step(s, v))
  {
  }

  lemma StepKeeps(s: State, v: Event)
    requires Inv(s) && Enabled(s, v)
    ensures Inv(Step(s, v))
  {
    SingleFlightKeeps(s, v);
    OwnChannelsKeeps(s, v);
    NoLostWakeKeeps(s, v);
    KeepsTheLastKeeps(s, v);
    EpochsKeeps(s, v);
  }

  // ------------------------------------------------------------ every run

  function Run(events: seq<Event>): Option<State> {
    if events == [] then Some(START)
    else
      match Run(events[..|events| - 1])
      case None => None
      case Some(s) => if Enabled(s, events[|events| - 1]) then Some(Step(s, events[|events| - 1])) else None
  }

  lemma {:induction false} EveryRun(events: seq<Event>)
    ensures Run(events).Some? ==> Inv(Run(events).value)
  {
    if events != [] {
      var before := events[..|events| - 1];
      EveryRun(before);
      if Run(before).Some? && Enabled(Run(before).value, events[|events| - 1]) { StepKeeps(Run(before).value, events[|events| - 1]); }
    }
  }

  /** At most one reader scans a node, one does exactly while the node is in flight, and
      what a reader waits on is such a scan or over. */
  lemma OneScanANode(events: seq<Event>, s: State, node: string)
    requires Run(events) == Some(s)
    ensures node in s.inflight <==> exists r :: IsScanning(s, r, node)
    ensures forall r, q :: IsScanning(s, r, node) && IsScanning(s, q, node) ==> r == q
    ensures forall r :: r in s.readers && s.readers[r].Waiting? ==>
              Enabled(s, Wakes(r)) || exists q :: IsScanning(s, q, s.readers[r].node) && s.readers[q].channel == s.readers[r].channel
  {
    EveryRun(events);
    forall r | r in s.readers && s.readers[r].Waiting? && !Enabled(s, Wakes(r))
      ensures exists q :: IsScanning(s, q, s.readers[r].node) && s.readers[q].channel == s.readers[r].channel
    {
      assert IsScanning(s, s.owner[s.readers[r].node], s.readers[r].node);
    }
  }

  /** What a reader meets when it enters: it is answered with the node's scan exactly when that is
      younger than it asks and it forces none; else it waits on the scan under way, or scans. */
  lemma EntersExactly(s: State, r: nat)
    requires Enabled(s, Enters(r))
    ensures var e, t := s.readers[r], Step(s, Enters(r));
            var answered := e.node in s.snaps && !e.force && s.now - s.snaps[e.node].scannedAt < e.ttl;
            && (answered ==> t == s.(readers := s.readers[r := Answered(e.node, s.snaps[e.node])]))
            && (!answered && e.node in s.inflight ==> t == s.(readers := s.readers[r := Waiting(e.node, e.ttl, s.inflight[e.node])]))
            && (!answered && e.node !in s.inflight ==> t.readers[r] == Scanning(e.node, s.channels, s.epoch) && e.node in t.inflight)
  {
  }

  /** A reader may wake exactly when no scan is to close its channel; it enters again and takes what
      it finds. One that gives up is called off. */
  lemma WakesExactly(s: State, r: nat)
    requires r in s.readers && s.readers[r].Waiting?
    ensures Enabled(s, Wakes(r)) <==> forall n :: n in s.inflight ==> s.inflight[n] != s.readers[r].channel
    ensures Enabled(s, Wakes(r)) ==>
              Step(s, Wakes(r)) == s.(readers := s.readers[r := Entering(s.readers[r].node, s.readers[r].ttl, false)])
    ensures Enabled(s, GivesUp(r)) && Step(s, GivesUp(r)) == s.(readers := s.readers[r := CalledOff(s.readers[r].node)])
  {
  }

  /** But for an invalidation, no stored scan is dropped and its time does not go back. */
  lemma ScannedAtNeverGoesBack(events: seq<Event>, s: State, v: Event, node: string)
    requires Run(events) == Some(s) && Enabled(s, v) && !v.Invalidates? && node in s.snaps
    ensures node in Step(s, v).snaps && Step(s, v).snaps[node].scannedAt >= s.snaps[node].scannedAt
  {
    EveryRun(events);
  }

  ghost predicate Quiet(events: seq<Event>, i: nat)
    requires i <= |events|
  {
    forall k :: i <= k < |events| ==> !events[k].Invalidates?
  }

  /** Between invalidations, over any run. */
  lemma {:induction false} ScannedAtBetween(events: seq<Event>, i: nat, node: string)
    requires i <= |events| && Quiet(events, i) && Run(events).Some? && Run(events[..i]).Some?
    requires node in Run(events[..i]).value.snaps
    ensures var s, t := Run(events[..i]).value, Run(events).value;
            node in t.snaps && s.snaps[node].scannedAt <= t.snaps[node].scannedAt
    decreases |events|
  {
    if i < |events| {
      var before := events[..|events| - 1];
      assert before[..i] == events[..i];
      ScannedAtBetween(before, i, node);
      ScannedAtNeverGoesBack(before, Run(before).value, events[|events| - 1], node);
    } else {
      assert events[..i] == events;
    }
  }

  /** The stored entries are those of the last scan of the node that succeeded since the
      last invalidation, at its time; none where every scan failed. */
  lemma FailuresKeepTheEntries(events: seq<Event>, s: State, node: string)
    requires Run(events) == Some(s) && node in s.snaps
    ensures if node in s.successes
            then s.snaps[node].entries == s.successes[node].entries && s.snaps[node].scannedAt == s.successes[node].at
            else s.snaps[node].entries == [] && s.snaps[node].failed
    ensures s.snaps[node].scannedAt <= s.now
  {
    EveryRun(events);
  }

  /** A scan begun before an invalidation is stored after it only where its node was being
      scanned when the invalidation came. */
  lemma OldScansAreTheHeldOnes(events: seq<Event>, s: State, node: string)
    requires Run(events) == Some(s) && node in s.successes && s.successes[node].epoch < s.epoch
    ensures node in s.held
  {
    EveryRun(events);
  }

  /** And there it is: whatever a scan finds, it is stored by the reader that began it,
      also when the entries were invalidated meanwhile. */
  lemma HeldScanIsStored(events: seq<Event>, s: State, r: nat, entries: seq<string>)
    requires Run(events) == Some(s) && r in s.readers && s.readers[r].Scanning?
    ensures var t := Step(Step(s, Invalidates), ScanEnds(r, Found("", entries)));
            var node := s.readers[r].node;
            && t.snaps[node] == Snapshot(node, entries, s.now, false)
            && t.successes[node].epoch < t.epoch
            && Step(s, Invalidates).held == s.inflight.Keys && node in s.inflight
  {
    EveryRun(events);
  }

  // ------------------------------------------------------------ forced reads

  /** A state with how many scans were stored so far, by which of them the node's is, and how many
      there were when a reader came that forces a scan. */
  datatype Counted = Counted(s: State, stores: nat, stored: map<string, nat>, forced: map<nat, nat>)

  function Count(c: Counted, v: Event): Counted
    requires Enabled(c.s, v)
  {
    var t := Step(c.s, v);
    match v
    case Arrive(r, _, _, force) => Counted(t, c.stores, c.stored, if force then c.forced[r := c.stores] else c.forced - {r})
    case ScanEnds(r, _) => Counted(t, c.stores + 1, c.stored[c.s.readers[r].node := c.stores + 1], c.forced)
    case _ => Counted(t, c.stores, c.stored, c.forced)
  }

  function CountedRun(events: seq<Event>): Option<Counted> {
    if events == [] then Some(Counted(START, 0, map[], map[]))
    else
      match CountedRun(events[..|events| - 1])
      case None => None
      case Some(c) => if Enabled(c.s, events[|events| - 1]) then Some(Count(c, events[|events| - 1])) else None
  }

  /** What a reader that forced a scan may be answered with was stored after it came. */
  ghost predicate ForcedGetNew(c: Counted) {
    && (forall n :: n in c.s.snaps ==> n in c.stored) && (forall n :: n in c.stored ==> c.stored[n] <= c.stores)
    && (forall r :: r in c.forced ==> r in c.s.readers && c.forced[r] <= c.stores && ForcedOk(c, c.s.readers[r], c.forced[r]))
  }

  ghost predicate ForcedOk(c: Counted, reader: Reader, since: nat) {
    match reader
    case Entering(node, _, force) => force || StoredSince(c, node, since)
    case Waiting(node, _, channel) => Closed(c.s, channel) ==> StoredSince(c, node, since)
    case _ => true
  }

  predicate StoredSince(c: Counted, node: string, since: nat) { node in c.s.snaps && node in c.stored ==> c.stored[node] > since }

  lemma StoredSinceStays(c: Counted, v: Event, node: string, since: nat)
    requires ForcedGetNew(c) && Enabled(c.s, v) && since <= c.stores && StoredSince(c, node, since)
    ensures StoredSince(Count(c, v), node, since)
  {
  }

  /** A node is in flight under its channel until its scan ends. */
  lemma StaysInFlight(s: State, v: Event, node: string)
    requires Enabled(s, v) && node in s.inflight
    ensures node in Step(s, v).inflight ==> Step(s, v).inflight[node] == s.inflight[node]
    ensures node !in Step(s, v).inflight ==> v.ScanEnds? && s.readers[v.reader].node == node
  {
  }

  /** The scan a reader waits on stores when it closes. */
  lemma ClosingStores(c: Counted, v: Event, w: Reader, since: nat)
    requires Inv(c.s) && Enabled(c.s, v) && w.Waiting? && since <= c.stores && Awaits(c.s, w)
    requires Closed(Step(c.s, v), w.channel)
    ensures StoredSince(Count(c, v), w.node, since)
  {
    StaysInFlight(c.s, v, w.node);
  }

  lemma ForcedStaysOk(c: Counted, v: Event, r: nat)
    requires Inv(c.s) && ForcedGetNew(c) && Enabled(c.s, v) && r in c.forced && !(v.Arrive? && v.reader == r)
    ensures r in Step(c.s, v).readers && ForcedOk(Count(c, v), Step(c.s, v).readers[r], c.forced[r])
  {
    var before, after := c.s.readers[r], Step(c.s, v).readers[r];
    assert ForcedOk(c, before, c.forced[r]);
    if after == before && before.Waiting? && !Closed(c.s, before.channel) {
      assert Awaits(c.s, before);
      if Closed(Step(c.s, v), before.channel) { ClosingStores(c, v, before, c.forced[r]); }
    } else if before.Entering? || before.Waiting? {
      if StoredSince(c, before.node, c.forced[r]) { StoredSinceStays(c, v, before.node, c.forced[r]); }
      if after.Waiting? && before.Entering? { assert !Closed(Step(c.s, v), after.channel); }
    }
  }

  lemma CountKeeps(c: Counted, v: Event)
    requires Inv(c.s) && ForcedGetNew(c) && Enabled(c.s, v)
    ensures ForcedGetNew(Count(c, v))
  {
    var t := Count(c, v);
    forall r | r in t.forced ensures r in t.s.readers && t.forced[r] <= t.stores && ForcedOk(t, t.s.readers[r], t.forced[r]) {
      if !(v.Arrive? && v.reader == r) { ForcedStaysOk(c, v, r); }
    }
  }

  lemma {:induction false} CountedRunKeeps(events: seq<Event>)
    ensures CountedRun(events).Some? ==>
              Run(events) == Some(CountedRun(events).value.s) && Inv(CountedRun(events).value.s) && ForcedGetNew(CountedRun(events).value)
  {
    if events != [] {
      var before, v := events[..|events| - 1], events[|events| - 1];
      CountedRunKeeps(before);
      var c := CountedRun(before);
      if c.Some? && Enabled(c.value.s, v) {
        StepKeeps(c.value.s, v);
        CountKeeps(c.value, v);
      }
    }
  }

  /** A reader that forces a scan is never answered, on entering, with one stored before it came. */
  lemma ForcedReadIsNew(events: seq<Event>, c: Counted, r: nat)
    requires CountedRun(events) == Some(c) && r in c.forced
    requires Enabled(c.s, Enters(r)) && Step(c.s, Enters(r)).readers[r].Answered?
    ensures Run(events) == Some(c.s)
    ensures c.s.readers[r].node in c.stored && c.stored[c.s.readers[r].node] > c.forced[r]
  {
    CountedRunKeeps(events);
    assert ForcedOk(c, c.s.readers[r], c.forced[r]);
  }
}
