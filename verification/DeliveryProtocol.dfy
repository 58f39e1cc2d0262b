// Offline delivery as a two-party protocol: a sender whose PUTs reach lossy
// write-once drops one at a time, a receiver whose sweep is interleaved with
// everything else, index-sync frames that may be delayed or repeated, saves and
// restarts. The receiver's steps are those of OfflineState.
module DeliveryProtocol {
  import opened Basics
  import opened OfflineState

  // One send_offline_message between its PUT and the answer of put().
  datatype Attempt = Attempt(index: nat, replies: map<nat, PutReply>, landed: bool)

  datatype Frame = NextSend(next: nat) | RecvBase(base: nat)

  datatype SweepRun = Idle | Running(now: int, todo: seq<Target>, misses: set<nat>, hits: set<nat>)

  // History: the misses a finished sweep counted and the gaps it skipped.
  datatype SweepLog = SweepLog(misses: set<nat>, skipped: set<nat>, known: nat)

  datatype System = System(
    send: nat,
    inflight: map<nat, Attempt>,
    over: set<Attempt>,               // ended or cut off; where no drop answered, bytes may still arrive
    drops: set<nat>,
    store: set<(nat, nat)>,
    recv: RecvState,
    saved: RecvState,
    sweep: SweepRun,
    frames: set<Frame>,
    // History, read by no step except to say which blobs were ever readable.
    landed: set<nat>,
    authentic: set<nat>,
    log: seq<SweepLog>)

  function Init(window: nat, drops: set<nat>): System {
    System(0, map[], {}, drops, {}, Fresh(window), Fresh(window), Idle, {}, {}, {}, [])
  }

  datatype Event =
    | BeginPut(id: nat)
    | Deliver(id: nat, drop: nat, replyLost: bool)
    | Refuse(id: nat, drop: nat)
    | EndPut(id: nat)
    | RestartSender
    | Straggle(attempt: Attempt, drop: nat)
    | Lose(drop: nat, lostIndex: nat)
    | BeginSweep(now: int)
    | Answered(reply: Reply)
    | EndSweep
    | Save
    | RestartReceiver
    | SendNext
    | SendBase
    | Receive(frame: Frame)

  predicate Waiting(s: System, id: nat, drop: nat) {
    id in s.inflight && drop in s.drops && drop !in s.inflight[id].replies
  }

  // The sender never heard of this drop: it is still awaited, timed out or failed. A
  // drop waits longer for a blob than the sender for its answer.
  predicate Unanswered(a: Attempt, drop: nat) {
    drop !in a.replies || a.replies[drop] == Failed
  }

  predicate Enabled(s: System, e: Event) {
    match e
    case BeginPut(id) => id !in s.inflight
    case Deliver(id, drop, _) => Waiting(s, id, drop)
    case Refuse(id, drop) => Waiting(s, id, drop)
    case EndPut(id) => id in s.inflight && s.inflight[id].replies.Keys == s.drops
    case RestartSender => s.send <= MAX_U64
    case Straggle(a, drop) => a in s.over && drop in s.drops && Unanswered(a, drop)
    case Lose(_, _) => true
    case BeginSweep(_) => s.sweep.Idle?
    case Answered(reply) =>
      s.sweep.Running? && s.sweep.todo != [] && (reply == Hit ==> s.sweep.todo[0].index in s.landed)
    case EndSweep => s.sweep.Running? && s.sweep.todo == []
    case Save => true
    case RestartReceiver => true
    case SendNext => s.send <= MAX_U64
    case SendBase => true
    case Receive(frame) => frame in s.frames
  }

  function Reached(s: System, id: nat, drop: nat, replyLost: bool): System
    requires Waiting(s, id, drop)
  {
    var a := s.inflight[id];
    if (drop, a.index) in s.store then
      s.(inflight := s.inflight[id := a.(replies := a.replies[drop := if replyLost then Failed else AlreadyThere])])
    else
      s.(store := s.store + {(drop, a.index)},
      landed := s.landed + {a.index},
      inflight := s.inflight[id := Attempt(a.index, a.replies[drop := if replyLost then Failed else Stored], true)])
  }

  function Counted(w: SweepRun): set<nat>
    requires w.Running?
  {
    w.misses - w.hits
  }

  function NewGaps(r: RecvState, counted: set<nat>, now: int): set<nat> {
    Gaps(r.base, r.known, Tally(r.missing, counted, now)) - r.skipped.Keys
  }

  function Apply(s: System, e: Event): System
    requires Enabled(s, e)
  {
    match e
    case BeginPut(id) => s.(inflight := s.inflight[id := Attempt(s.send, map[], false)])
    case Deliver(id, drop, replyLost) => Reached(s, id, drop, replyLost)
    case Refuse(id, drop) =>
      var a := s.inflight[id];
      s.(inflight := s.inflight[id := a.(replies := a.replies[drop := Failed])])
    case EndPut(id) =>
      var status := PutStatus(s.inflight[id].replies.Values);
      s.(send := if status.Failed? then s.send else s.send + 1, inflight := s.inflight - {id},
      over := s.over + {s.inflight[id]})
    case RestartSender => s.(inflight := map[], over := s.over + s.inflight.Values)
    case Straggle(a, drop) =>
      if (drop, a.index) in s.store then s
      else s.(store := s.store + {(drop, a.index)}, landed := s.landed + {a.index})
    case Lose(drop, lostIndex) => s.(store := s.store - {(drop, lostIndex)})
    case BeginSweep(now) =>
      var (r, targets) := BuildTargets(s.recv, now);
      s.(recv := r, sweep := Running(now, targets, {}, {}))
    case Answered(reply) =>
      var t := s.sweep.todo[0];
      var p := Answer(Progress(s.recv, s.sweep.misses, s.sweep.hits), t, reply);
      s.(recv := p.state,
      sweep := Running(s.sweep.now, s.sweep.todo[1..], p.misses, p.hits),
      authentic := if reply == Hit then s.authentic + {t.index} else s.authentic)
    case EndSweep =>
      var r := Finalize(s.recv, s.sweep.misses, s.sweep.hits, s.sweep.now);
      s.(recv := r, saved := r, sweep := Idle,
      log := s.log + [SweepLog(Counted(s.sweep), NewGaps(s.recv, Counted(s.sweep), s.sweep.now), s.recv.known)])
    case Save => s.(saved := s.recv)
    case RestartReceiver => s.(recv := Restored(s.saved), sweep := Idle)
    case SendNext => s.(frames := s.frames + {NextSend(s.send)})
    case SendBase => s.(frames := s.frames + {RecvBase(s.recv.base)})
    case Receive(NextSend(next)) =>
      var r := s.recv.(known := Max(s.recv.known, next));
      s.(recv := r, saved := r)
    case Receive(RecvBase(base)) => s.(send := Max(s.send, base))
  }

  ghost predicate Legal(s: System, run: seq<Event>)
    decreases |run|
  {
    run != [] ==> Enabled(s, run[0]) && Legal(Apply(s, run[0]), run[1..])
  }

  ghost function Execute(s: System, run: seq<Event>): System
    requires Legal(s, run)
    decreases |run|
  {
    if run == [] then s else Execute(Apply(s, run[0]), run[1..])
  }

  lemma OneStep(s: System, e: Event, rest: seq<Event>)
    requires Enabled(s, e) && Legal(Apply(s, e), rest)
    ensures Legal(s, [e] + rest)
    ensures Execute(s, [e] + rest) == Execute(Apply(s, e), rest)
  {
    assert ([e] + rest)[1..] == rest;
  }

  lemma {:induction false} RunsAppend(s: System, first: seq<Event>, rest: seq<Event>)
    requires Legal(s, first) && Legal(Execute(s, first), rest)
    ensures Legal(s, first + rest)
    ensures Execute(s, first + rest) == Execute(Execute(s, first), rest)
    decreases |first|
  {
    if first == [] {
      assert first + rest == rest;
    } else {
      RunsAppend(Apply(s, first[0]), first[1..], rest);
      OneStep(s, first[0], first[1..] + rest);
      assert first + rest == [first[0]] + (first[1..] + rest);
    }
  }

  // ------------------------------------------------------- receiver invariant

  function MissCount(log: seq<SweepLog>, x: nat): nat {
    if log == [] then 0
    else MissCount(log[..|log| - 1], x) + (if x in log[|log| - 1].misses then 1 else 0)
  }

  // Some finished sweep skipped x while x was below the receiver's known next
  // send, and by then at least GAP_MISS_ROUNDS sweeps had confirmed a miss at x.
  ghost predicate SkippedAfterMisses(log: seq<SweepLog>, x: nat) {
    exists j :: 0 <= j < |log| && x in log[j].skipped && x < log[j].known
             && MissCount(log[..j + 1], x) >= GAP_MISS_ROUNDS
  }

  // The bound is one past the highest index a blob can have.
  ghost predicate RecvInv(r: RecvState, bound: nat, authentic: set<nat>, log: seq<SweepLog>) {
    && r.Valid()
    && r.base <= r.known <= bound
    && (forall x :: x in r.consumed ==> x in authentic && (x < r.known || r.known >= MAX_U64))
    && (forall x :: x in r.skipped ==> x < r.known && SkippedAfterMisses(log, x))
    && (forall x :: 0 <= x < r.base ==> x in authentic || SkippedAfterMisses(log, x))
    && (forall x :: x in r.missing ==> r.missing[x].rounds <= MissCount(log, x))
  }

  lemma AdvanceKeeps(r: RecvState, bound: nat, authentic: set<nat>, log: seq<SweepLog>)
    requires RecvInv(r, bound, authentic, log)
    ensures RecvInv(Advance(r), bound, authentic, log) && Settled(Advance(r))
  {
    var b := NextFree(r.base, r.Held());
    assert b > r.base ==> b - 1 in r.Held();
    forall x | r.base <= x < b
      ensures x in authentic || SkippedAfterMisses(log, x)
    {
      assert x in r.Held();
    }
  }

  lemma RecordKeeps(r: RecvState, i: nat, bound: nat, authentic: set<nat>, log: seq<SweepLog>)
    requires RecvInv(r, bound, authentic, log)
    requires i < bound && i in authentic
    ensures RecvInv(Record(r, i), bound, authentic, log) && Settled(Record(r, i))
  {
    AdvanceKeeps(Note(r, i), bound, authentic, log);
  }

  lemma HistoryGrows(log: seq<SweepLog>, entry: SweepLog, x: nat)
    ensures MissCount(log + [entry], x) == MissCount(log, x) + (if x in entry.misses then 1 else 0)
    ensures SkippedAfterMisses(log, x) ==> SkippedAfterMisses(log + [entry], x)
  {
    assert (log + [entry])[..|log|] == log;
    if SkippedAfterMisses(log, x) {
      var j :| 0 <= j < |log| && x in log[j].skipped && x < log[j].known
            && MissCount(log[..j + 1], x) >= GAP_MISS_ROUNDS;
      assert (log + [entry])[..j + 1] == log[..j + 1];
      assert (log + [entry])[j] == log[j];
    }
  }

  lemma HistoryGrowsForAll(log: seq<SweepLog>, entry: SweepLog)
    ensures forall x :: SkippedAfterMisses(log, x) ==> SkippedAfterMisses(log + [entry], x)
    ensures forall x :: MissCount(log, x) <= MissCount(log + [entry], x)
  {
    forall x
      ensures SkippedAfterMisses(log, x) ==> SkippedAfterMisses(log + [entry], x)
    {
      HistoryGrows(log, entry, x);
    }
    forall x
      ensures MissCount(log, x) <= MissCount(log + [entry], x)
    {
      HistoryGrows(log, entry, x);
    }
  }

  lemma SettleKeeps(r: RecvState, misses: set<nat>, hits: set<nat>, now: int,
                    bound: nat, authentic: set<nat>, log: seq<SweepLog>)
    requires RecvInv(r, bound, authentic, log)
    ensures var entry := SweepLog(misses - hits, NewGaps(r, misses - hits, now), r.known);
            RecvInv(Settle(r, misses, hits, now), bound, authentic, log + [entry])
  {
    var counted := misses - hits;
    var entry := SweepLog(counted, NewGaps(r, counted, now), r.known);
    var log' := log + [entry];
    var tallied := Tally(r.missing, counted, now);
    HistoryGrowsForAll(log, entry);
    forall x | x in tallied
      ensures tallied[x].rounds <= MissCount(log', x)
    {
      HistoryGrows(log, entry, x);
    }
    forall x | x in entry.skipped
      ensures SkippedAfterMisses(log', x)
    {
      assert log'[..|log| + 1] == log' && log'[|log|] == entry;
    }
  }

  lemma FinalizeKeeps(r: RecvState, misses: set<nat>, hits: set<nat>, now: int,
                      bound: nat, authentic: set<nat>, log: seq<SweepLog>)
    requires RecvInv(r, bound, authentic, log)
    ensures var entry := SweepLog(misses - hits, NewGaps(r, misses - hits, now), r.known);
            RecvInv(Finalize(r, misses, hits, now), bound, authentic, log + [entry])
    ensures Settled(Finalize(r, misses, hits, now))
  {
    var entry := SweepLog(misses - hits, NewGaps(r, misses - hits, now), r.known);
    SettleKeeps(r, misses, hits, now, bound, authentic, log);
    AdvanceKeeps(Settle(r, misses, hits, now), bound, authentic, log + [entry]);
  }

  lemma BuildTargetsKeeps(r: RecvState, now: int, bound: nat, authentic: set<nat>, log: seq<SweepLog>)
    requires RecvInv(r, bound, authentic, log)
    ensures RecvInv(BuildTargets(r, now).0, bound, authentic, log)
    ensures Settled(r) ==> Settled(BuildTargets(r, now).0)
  {
  }

  lemma RestoredKeeps(r: RecvState, bound: nat, authentic: set<nat>, log: seq<SweepLog>)
    requires RecvInv(r, bound, authentic, log)
    ensures RecvInv(Restored(r), bound, authentic, log)
    ensures Settled(r) ==> Settled(Restored(r))
  {
  }

  // ----------------------------------------------------------- protocol steps

  ghost predicate RecvSide(s: System, bound: nat) {
    && s.send <= bound
    && (forall i :: i in s.landed ==> i < bound)
    && s.authentic <= s.landed
    && RecvInv(s.recv, bound, s.authentic, s.log) && Settled(s.recv)
    && RecvInv(s.saved, bound, s.authentic, s.log) && Settled(s.saved)
    && (forall f :: f in s.frames ==> (match f case NextSend(n) => n <= bound case RecvBase(b) => b <= bound))
  }

  lemma RecvSideWider(s: System, t: System, bound: nat, wider: nat)
    requires RecvSide(s, bound) && bound <= wider
    requires t.recv == s.recv && t.saved == s.saved && t.log == s.log && t.authentic == s.authentic
    requires t.frames == s.frames && s.landed <= t.landed
    requires t.send <= wider && forall i :: i in t.landed ==> i < wider
    ensures RecvSide(t, wider)
  {
  }

  predicate SenderStep(e: Event) {
    e.BeginPut? || e.Deliver? || e.Refuse? || e.EndPut? || e.RestartSender? || e.Straggle?
    || (e.Receive? && e.frame.RecvBase?)
  }

  lemma EndSweepKeepsRecvSide(s: System, bound: nat)
    requires RecvSide(s, bound) && Enabled(s, EndSweep)
    ensures RecvSide(Apply(s, EndSweep), bound)
  {
    FinalizeKeeps(s.recv, s.sweep.misses, s.sweep.hits, s.sweep.now, bound, s.authentic, s.log);
  }

  lemma AnsweredKeepsRecvSide(s: System, reply: Reply, bound: nat)
    requires RecvSide(s, bound) && Enabled(s, Answered(reply))
    ensures RecvSide(Apply(s, Answered(reply)), bound)
  {
    if reply == Hit {
      var i := s.sweep.todo[0].index;
      assert RecvInv(s.recv, bound, s.authentic + {i}, s.log);
      RecordKeeps(s.recv, i, bound, s.authentic + {i}, s.log);
    }
  }

  // Whatever the receiver, the drops, the saves and the frames do, the receiver
  // stays under the same bound.
  lemma ReceiverStepKeeps(s: System, e: Event, bound: nat)
    requires RecvSide(s, bound) && Enabled(s, e) && !SenderStep(e)
    ensures RecvSide(Apply(s, e), bound)
    ensures Apply(s, e).send == s.send && Apply(s, e).inflight == s.inflight && Apply(s, e).landed == s.landed
    ensures Apply(s, e).over == s.over
    ensures Apply(s, e).store <= s.store
  {
    match e
    case BeginSweep(now) => BuildTargetsKeeps(s.recv, now, bound, s.authentic, s.log);
    case Answered(reply) => AnsweredKeepsRecvSide(s, reply, bound);
    case EndSweep => EndSweepKeepsRecvSide(s, bound);
    case RestartReceiver => RestoredKeeps(s.saved, bound, s.authentic, s.log);
    case _ =>
  }

  // ------------------------------------------------ safety under any schedule

  ghost predicate Inv(s: System) {
    && RecvSide(s, s.send + 1)
    && (forall p :: p in s.store ==> p.1 in s.landed)
    && (forall id :: id in s.inflight ==> s.inflight[id].index <= s.send)
    && (forall a :: a in s.over ==> a.index <= s.send)
  }

  lemma SenderStepFrame(s: System, e: Event)
    requires Inv(s) && Enabled(s, e) && SenderStep(e)
    ensures var t := Apply(s, e);
            && t.recv == s.recv && t.saved == s.saved && t.log == s.log && t.authentic == s.authentic
            && t.frames == s.frames && s.landed <= t.landed && s.send <= t.send
            && (forall i :: i in t.landed ==> i <= t.send)
            && (forall p :: p in t.store ==> p.1 in t.landed)
            && (forall id :: id in t.inflight ==> t.inflight[id].index <= t.send)
  {
    hide RecvInv, BuildTargets, Answer, Finalize, Restored, NewGaps, PutStatus;
  }

  lemma OverStaysBelow(s: System, e: Event)
    requires Inv(s) && Enabled(s, e) && SenderStep(e)
    ensures forall a :: a in Apply(s, e).over ==> a.index <= Apply(s, e).send
  {
    hide RecvSide;
  }

  lemma StepKeepsInv(s: System, e: Event)
    requires Inv(s) && Enabled(s, e)
    ensures Inv(Apply(s, e))
  {
    if SenderStep(e) {
      SenderStepFrame(s, e);
      OverStaysBelow(s, e);
      RecvSideWider(s, Apply(s, e), s.send + 1, Apply(s, e).send + 1);
    } else {
      ReceiverStepKeeps(s, e, s.send + 1);
    }
  }

  lemma {:induction false} RunKeepsInv(s: System, run: seq<Event>)
    requires Inv(s) && Legal(s, run)
    ensures Inv(Execute(s, run))
    decreases |run|
  {
    if run != [] {
      StepKeepsInv(s, run[0]);
      RunKeepsInv(Apply(s, run[0]), run[1..]);
    }
  }

  lemma InitInv(window: nat, drops: set<nat>)
    requires window >= 1
    ensures Inv(Init(window, drops))
  {
  }

  // Every reachable state of sender, receiver, drops and frames.
  lemma ReachableIsSafe(window: nat, drops: set<nat>, run: seq<Event>)
    requires window >= 1 && Legal(Init(window, drops), run)
    ensures var s := Execute(Init(window, drops), run);
            && (forall p :: p in s.store ==> p.1 <= s.send)
            && s.recv.base <= s.recv.known <= s.send + 1
            && Settled(s.recv)
            && s.recv.consumed <= s.authentic <= s.landed
            && (forall x :: x in s.recv.skipped ==> x < s.recv.known)
  {
    InitInv(window, drops);
    RunKeepsInv(Init(window, drops), run);
  }

  // Nothing is passed for free: an index the base has gone by was delivered, or
  // was skipped by a sweep after GAP_MISS_ROUNDS sweeps confirmed it missing.
  lemma PassedIndexesAreJustified(window: nat, drops: set<nat>, run: seq<Event>, x: nat)
    requires window >= 1 && Legal(Init(window, drops), run)
    requires x < Execute(Init(window, drops), run).recv.base
    ensures var s := Execute(Init(window, drops), run);
            x in s.authentic || SkippedAfterMisses(s.log, x)
  {
    RunKeepsInv(Init(window, drops), run);
  }

  // ------------------------------------------------- a sweep of its own steps

  function RestOfSweep(replies: seq<Reply>): seq<Event> {
    if replies == [] then [EndSweep] else [Answered(replies[0])] + RestOfSweep(replies[1..])
  }

  lemma {:induction false} RestOfSweepEnds(s: System, replies: seq<Reply>)
    requires s.sweep.Running? && |s.sweep.todo| == |replies|
    requires Legal(s, RestOfSweep(replies))
    ensures var p := AnswerAll(Progress(s.recv, s.sweep.misses, s.sweep.hits), s.sweep.todo, replies);
            Execute(s, RestOfSweep(replies)).recv == Finalize(p.state, p.misses, p.hits, s.sweep.now)
    decreases |replies|
  {
    hide Finalize, NewGaps, Record;
    var run := RestOfSweep(replies);
    if replies == [] {
      assert run[1..] == [];
    } else {
      assert run[0] == Answered(replies[0]) && run[1..] == RestOfSweep(replies[1..]);
      RestOfSweepEnds(Apply(s, run[0]), replies[1..]);
    }
  }

  // With nothing in between, the protocol's steps of a sweep add up to the one
  // Sweep that progress is proved about.
  lemma UninterruptedSweep(s: System, now: int, replies: seq<Reply>)
    requires s.sweep.Idle? && Answers(s.recv, now, replies)
    requires Legal(s, [BeginSweep(now)] + RestOfSweep(replies))
    ensures Execute(s, [BeginSweep(now)] + RestOfSweep(replies)).recv == Sweep(s.recv, now, replies)
  {
    hide Finalize, NewGaps, BuildTargets, AnswerAll;
    var run := [BeginSweep(now)] + RestOfSweep(replies);
    assert run[0] == BeginSweep(now) && run[1..] == RestOfSweep(replies);
    RestOfSweepEnds(Apply(s, run[0]), replies);
  }
}
