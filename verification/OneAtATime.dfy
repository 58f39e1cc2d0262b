// The delivery promise: when messages are sent one at a time, no PUT that stored
// its blob is reported as failed or cut off by a restart, and no drop stores a blob
// late where it does harm, each new message gets an index the receiver has neither
// consumed nor passed. For every step that can break it then, the promise holds exactly
// under that step's hypothesis.
module OneAtATime {
  import opened Basics
  import opened OfflineState
  import opened DeliveryProtocol

  ghost predicate Careful(s: System, e: Event)
    requires Enabled(s, e)
  {
    match e
    case BeginPut(_) => s.inflight == map[]
    case RestartSender => forall id :: id in s.inflight ==> !s.inflight[id].landed
    case Straggle(a, _) =>
      a.index in s.landed
      || (a.index < s.send && forall id :: id in s.inflight ==> s.inflight[id].index != a.index)
    case EndPut(id) => PutStatus(s.inflight[id].replies.Values).Failed? ==> !s.inflight[id].landed
    case _ => true
  }

  ghost predicate CarefulRun(s: System, run: seq<Event>)
    requires Legal(s, run)
    decreases |run|
  {
    run != [] ==> Careful(s, run[0]) && CarefulRun(Apply(s, run[0]), run[1..])
  }

  function Limit(send: nat, a: Attempt): nat {
    if a.landed then Max(send, a.index + 1) else send
  }

  ghost predicate AttemptInv(s: System, a: Attempt) {
    && a.index <= s.send
    && (a.index in s.landed <==> a.landed)
    && (forall d :: d in a.replies && a.replies[d] != Failed ==> a.landed)
    && RecvSide(s, Limit(s.send, a))
  }

  ghost predicate Inv(s: System) {
    && (forall p :: p in s.store ==> p.1 in s.landed)
    && (forall i, j :: i in s.inflight && j in s.inflight ==> i == j)
    && (forall a :: a in s.over ==> a.index <= s.send)
    && (s.inflight == map[] ==> RecvSide(s, s.send))
    && (forall id :: id in s.inflight ==> AttemptInv(s, s.inflight[id]))
  }

  lemma SoleAttempt(s: System, id: nat)
    requires Inv(s) && id in s.inflight
    ensures s.inflight - {id} == map[]
    ensures forall a: Attempt :: s.inflight[id := a] == map[id := a]
  {
  }

  lemma DeliverKeeps(s: System, id: nat, drop: nat, replyLost: bool)
    requires Inv(s) && Enabled(s, Deliver(id, drop, replyLost))
    ensures Inv(Apply(s, Deliver(id, drop, replyLost)))
  {
    hide RecvInv;
    var t := Apply(s, Deliver(id, drop, replyLost));
    var a := s.inflight[id];
    SoleAttempt(s, id);
    RecvSideWider(s, t, Limit(s.send, a), Limit(s.send, t.inflight[id]));
  }

  lemma EndPutKeeps(s: System, id: nat)
    requires Inv(s) && Enabled(s, EndPut(id)) && Careful(s, EndPut(id))
    ensures Inv(Apply(s, EndPut(id)))
    ensures Apply(s, EndPut(id)).send == s.send + 1 <==> s.inflight[id].landed
  {
    var t := Apply(s, EndPut(id));
    var a := s.inflight[id];
    SoleAttempt(s, id);
    var status := PutStatus(a.replies.Values);
    if !status.Failed? {
      assert status in a.replies.Values;
      assert a.landed;
    }
    RecvSideWider(s, t, Limit(s.send, a), t.send);
  }

  lemma RefuseKeeps(s: System, id: nat, drop: nat)
    requires Inv(s) && Enabled(s, Refuse(id, drop))
    ensures Inv(Apply(s, Refuse(id, drop)))
  {
    var t := Apply(s, Refuse(id, drop));
    SoleAttempt(s, id);
    RecvSideWider(s, t, Limit(s.send, s.inflight[id]), Limit(t.send, t.inflight[id]));
  }

  lemma SyncKeeps(s: System, frame: Frame)
    requires Inv(s) && Enabled(s, Receive(frame)) && frame.RecvBase?
    ensures Inv(Apply(s, Receive(frame)))
  {
    var t := Apply(s, Receive(frame));
    if s.inflight == map[] {
      RecvSideWider(s, t, s.send, t.send);
    }
    forall id | id in s.inflight
      ensures AttemptInv(t, t.inflight[id])
    {
      RecvSideWider(s, t, Limit(s.send, s.inflight[id]), Limit(t.send, s.inflight[id]));
    }
  }

  lemma RestartKeeps(s: System)
    requires Inv(s) && Enabled(s, RestartSender) && Careful(s, RestartSender)
    ensures Inv(Apply(s, RestartSender))
  {
    var t := Apply(s, RestartSender);
    if s.inflight == map[] {
      RecvSideWider(s, t, s.send, t.send);
    } else {
      var id :| id in s.inflight;
      RecvSideWider(s, t, Limit(s.send, s.inflight[id]), t.send);
    }
  }

  lemma StraggleKeeps(s: System, a: Attempt, drop: nat)
    requires Inv(s) && Enabled(s, Straggle(a, drop)) && Careful(s, Straggle(a, drop))
    ensures Inv(Apply(s, Straggle(a, drop)))
  {
    hide RecvInv;
    var t := Apply(s, Straggle(a, drop));
    if s.inflight == map[] {
      RecvSideWider(s, t, s.send, t.send);
    }
    forall id | id in s.inflight
      ensures AttemptInv(t, t.inflight[id])
    {
      RecvSideWider(s, t, Limit(s.send, s.inflight[id]), Limit(t.send, t.inflight[id]));
    }
  }

  lemma SenderStepKeeps(s: System, e: Event)
    requires Inv(s) && Enabled(s, e) && Careful(s, e) && SenderStep(e)
    ensures Inv(Apply(s, e))
  {
    var t := Apply(s, e);
    match e
    case Deliver(id, drop, replyLost) => DeliverKeeps(s, id, drop, replyLost);
    case EndPut(id) => EndPutKeeps(s, id);
    case Refuse(id, drop) => RefuseKeeps(s, id, drop);
    case Receive(frame) => SyncKeeps(s, frame);
    case RestartSender => RestartKeeps(s);
    case Straggle(a, drop) => StraggleKeeps(s, a, drop);
    case _ => RecvSideWider(s, t, s.send, t.send);
  }

  lemma StepKeepsInv(s: System, e: Event)
    requires Inv(s) && Enabled(s, e) && Careful(s, e)
    ensures Inv(Apply(s, e))
  {
    if SenderStep(e) {
      SenderStepKeeps(s, e);
    } else if s.inflight == map[] {
      ReceiverStepKeeps(s, e, s.send);
    } else {
      forall id | id in s.inflight
        ensures AttemptInv(Apply(s, e), Apply(s, e).inflight[id])
      {
        ReceiverStepKeeps(s, e, Limit(s.send, s.inflight[id]));
      }
      var id :| id in s.inflight;
      ReceiverStepKeeps(s, e, Limit(s.send, s.inflight[id]));
    }
  }

  lemma {:induction false} RunKeepsInv(s: System, run: seq<Event>)
    requires Inv(s) && Legal(s, run) && CarefulRun(s, run)
    ensures Inv(Execute(s, run))
    decreases |run|
  {
    if run != [] {
      StepKeepsInv(s, run[0]);
      RunKeepsInv(Apply(s, run[0]), run[1..]);
    }
  }

  // Between sends, the next index was never used and the receiver is still
  // waiting for it; everything skipped and not delivered lies below it.
  lemma NextMessageIsAwaited(window: nat, drops: set<nat>, run: seq<Event>)
    requires window >= 1
    requires Legal(Init(window, drops), run) && CarefulRun(Init(window, drops), run)
    ensures var s := Execute(Init(window, drops), run);
            s.inflight == map[] ==>
              && s.recv.base <= s.recv.known <= s.send
              && s.send !in s.landed
              && s.send !in s.recv.consumed
              && (forall x :: x in s.recv.skipped ==> x < s.send)
  {
    RunKeepsInv(Init(window, drops), run);
  }

  // EXISTS counts as success, yet every PUT that ends in success stored its own
  // blob, and every PUT that failed stored none.
  lemma SuccessMeansStored(window: nat, drops: set<nat>, run: seq<Event>, id: nat)
    requires window >= 1
    requires Legal(Init(window, drops), run) && CarefulRun(Init(window, drops), run)
    requires var s := Execute(Init(window, drops), run); Enabled(s, EndPut(id)) && Careful(s, EndPut(id))
    ensures var s := Execute(Init(window, drops), run);
            Apply(s, EndPut(id)).send == s.send + 1 <==> s.inflight[id].landed
  {
    RunKeepsInv(Init(window, drops), run);
    EndPutKeeps(Execute(Init(window, drops), run), id);
  }

  // When the hypothesis about failed PUTs is needed: after an attempt ends, the
  // next index is unused exactly if a stored blob was not reported as failed, or
  // an index-sync frame moved the send index past the attempt meanwhile.
  lemma NextIndexUnusedIff(s: System, id: nat)
    requires Inv(s) && Enabled(s, EndPut(id))
    ensures var t := Apply(s, EndPut(id));
            t.send !in t.landed <==> Careful(s, EndPut(id)) || s.inflight[id].index < s.send
  {
    var a := s.inflight[id];
    if Careful(s, EndPut(id)) {
      EndPutKeeps(s, id);
    } else if a.index == s.send {
      LandedWhereSent(s, id);
    }
  }

  // The same when a restart ends the attempt: the next index is unused exactly if
  // the PUT it cut off had stored nothing, or was passed by a sync frame.
  lemma NextIndexUnusedAfterRestartIff(s: System, id: nat)
    requires Inv(s) && id in s.inflight && Enabled(s, RestartSender)
    ensures var t := Apply(s, RestartSender);
            && (t.send !in t.landed <==> Careful(s, RestartSender) || s.inflight[id].index < s.send)
            && t.send == s.send && t.inflight == map[] && s.inflight[id] in t.over
  {
    var a := s.inflight[id];
    if a.landed && a.index == s.send {
      LandedWhereSent(s, id);
    }
  }

  // Nobody but the PUT under way stored anything at its index, nor anybody at the
  // index the next one will get.
  ghost predicate IndexesKept(s: System) {
    && (forall id :: id in s.inflight && s.inflight[id].index in s.landed ==> s.inflight[id].landed)
    && (s.send in s.landed ==> exists id :: id in s.inflight && s.inflight[id].landed && s.inflight[id].index == s.send)
  }

  // A drop that stores late, for a PUT that timed out, failed or was cut off, leaves
  // that so exactly under the hypothesis for its step, between sends and during one.
  lemma IndexesKeptAfterStraggleIff(s: System, a: Attempt, drop: nat)
    requires Inv(s) && Enabled(s, Straggle(a, drop))
    ensures IndexesKept(Apply(s, Straggle(a, drop))) <==> Careful(s, Straggle(a, drop))
  {
    InvKeepsIndexes(s);
    var t := Apply(s, Straggle(a, drop));
    if a.index !in s.landed {
      assert (drop, a.index) !in s.store && a.index in t.landed;
    }
  }

  lemma InvKeepsIndexes(s: System)
    requires Inv(s)
    ensures IndexesKept(s)
  {
    if s.send in s.landed {
      assert s.inflight != map[];
      var id :| id in s.inflight;
      assert AttemptInv(s, s.inflight[id]);
    }
  }

  // Between sends: unless the late blob's index is the next one.
  lemma NextIndexUnusedAfterStraggleIff(s: System, a: Attempt, drop: nat)
    requires Inv(s) && s.inflight == map[] && Enabled(s, Straggle(a, drop))
    ensures var t := Apply(s, Straggle(a, drop));
            && (t.send !in t.landed <==> Careful(s, Straggle(a, drop)))
            && (Careful(s, Straggle(a, drop)) <==> a.index != s.send)
  {
    assert s.send !in s.landed;
    if a.index == s.send {
      assert (drop, a.index) !in s.store;
    }
  }

  lemma LandedWhereSent(s: System, id: nat)
    requires Inv(s) && id in s.inflight && s.inflight[id].landed
    requires s.inflight[id].index == s.send
    ensures s.send in s.landed
  {
  }

  // One lost reply: the blob was stored and read, the PUT was reported as failed,
  // so the next message reuses index 0, is answered EXISTS, and counts as sent.
  function LostReply(): seq<Event> {
    [BeginPut(0), Deliver(0, 0, true), EndPut(0),
     BeginSweep(0), Answered(Hit), EndSweep,
     BeginPut(1), Deliver(1, 0, false)]
  }

  lemma HitAtZero()
    ensures BuildTargets(Fresh(1), 0) == (Fresh(1), [Target(0, Window)])
    ensures var r := Record(Fresh(1), 0);
            r.base == 1 && r.consumed == {} && r.skipped == map[] && r.missing == map[]
  {
    assert WindowFrom(0, 1, {}) == [Target(0, Window)];
    NextFreeUnique(0, Note(Fresh(1), 0).Held(), 1);
  }

  lemma NothingToSettle(r: RecvState, hits: set<nat>)
    requires r.base < MAX_U64 && r.consumed == {} && r.skipped == map[] && r.missing == map[]
    ensures Finalize(r, {}, hits, 0).base == r.base
  {
    assert {} - hits == {};
    assert Tally(r.missing, {}, 0) == map[];
    assert Settle(r, {}, hits, 0).Held() == {};
  }

  function AfterFailedPut(): System {
    Init(1, {0}).(store := {(0, 0)}, landed := {0}, over := {Attempt(0, map[0 := Failed], true)})
  }

  lemma FirstPut()
    ensures Legal(Init(1, {0}), LostReply()[..3])
    ensures Execute(Init(1, {0}), LostReply()[..3]) == AfterFailedPut()
  {
    var run := LostReply();
    var s0 := Init(1, {0});
    var s1 := Apply(s0, run[0]);
    var s2 := Apply(s1, run[1]);
    var s3 := Apply(s2, run[2]);
    assert s3 == AfterFailedPut();
    OneStep(s2, run[2], []);
    OneStep(s1, run[1], [run[2]]);
    OneStep(s0, run[0], run[1..3]);
    assert run[..3] == [run[0]] + run[1..3];
  }

  lemma OneSweep()
    ensures Legal(AfterFailedPut(), LostReply()[3..6])
    ensures var s := Execute(AfterFailedPut(), LostReply()[3..6]);
            && s.recv.base == 1
            && s == AfterFailedPut().(recv := s.recv, saved := s.saved, authentic := s.authentic, log := s.log)
  {
    hide BuildTargets, Record, Finalize, NewGaps;
    HitAtZero();
    var s4 := Apply(AfterFailedPut(), BeginSweep(0));
    var s5 := Apply(s4, Answered(Hit));
    EndOfHitSweep(s5);
    OneStep(s4, Answered(Hit), [EndSweep]);
    OneStep(AfterFailedPut(), BeginSweep(0), [Answered(Hit), EndSweep]);
    assert LostReply()[3..6] == [BeginSweep(0)] + ([Answered(Hit)] + [EndSweep]);
    assert [Answered(Hit)] + [EndSweep] == [Answered(Hit), EndSweep];
  }

  lemma EndOfHitSweep(s: System)
    requires s.sweep == Running(0, [], {}, {0})
    requires s.recv == Record(Fresh(1), 0)
    ensures Legal(s, [EndSweep])
    ensures var t := Execute(s, [EndSweep]);
            t.recv.base == 1 && t == s.(recv := t.recv, saved := t.saved, sweep := Idle, log := t.log)
  {
    hide Finalize, NewGaps, Record;
    HitAtZero();
    NothingToSettle(s.recv, {0});
    OneStep(s, EndSweep, []);
    assert [EndSweep] == [EndSweep] + [];
  }

  lemma SecondPut(s: System)
    requires s.inflight == map[] && s.send == 0 && s.drops == {0} && s.store == {(0, 0)}
    ensures Legal(s, LostReply()[6..])
    ensures Execute(s, LostReply()[6..]) == s.(inflight := map[1 := Attempt(0, map[0 := AlreadyThere], false)])
  {
    var run := LostReply();
    var s7 := Apply(s, run[6]);
    var s8 := Apply(s7, run[7]);
    OneStep(s7, run[7], []);
    OneStep(s, run[6], [run[7]]);
    assert run[6..] == [run[6]] + [run[7]];
  }

  lemma LostReplyLosesTheNextMessage()
    ensures Legal(Init(1, {0}), LostReply())
    ensures var s := Execute(Init(1, {0}), LostReply());
            && s.recv.base == 1
            && s.inflight == map[1 := Attempt(0, map[0 := AlreadyThere], false)]
            && Enabled(s, EndPut(1)) && Apply(s, EndPut(1)).send == 1
  {
    hide Legal, Execute, Apply;
    var run := LostReply();
    FirstPut();
    OneSweep();
    var s := Execute(AfterFailedPut(), run[3..6]);
    SecondPut(s);
    RunsAppend(AfterFailedPut(), run[3..6], run[6..]);
    RunsAppend(Init(1, {0}), run[..3], run[3..6] + run[6..]);
    assert run == run[..3] + (run[3..6] + run[6..]);
    ExistsCounts(Execute(Init(1, {0}), run), 1);
  }

  lemma ExistsCounts(s: System, id: nat)
    requires s.drops == {0} && s.send == 0
    requires id in s.inflight && s.inflight[id] == Attempt(0, map[0 := AlreadyThere], false)
    ensures Enabled(s, EndPut(id)) && Apply(s, EndPut(id)).send == 1
  {
    var replies := s.inflight[id].replies;
    assert replies[0] == AlreadyThere;
    assert replies.Values == {AlreadyThere};
  }

  // A PUT that fails with nothing stored may still be stored afterwards: every step
  // but the last keeps the hypotheses, and the last one uses the next index.
  lemma LateStoreUsesTheNextIndex()
    ensures var (s, a) := (Init(1, {0}), Attempt(0, map[0 := Failed], false));
            var run := [BeginPut(0), Refuse(0, 0), EndPut(0)];
            && Legal(s, run) && CarefulRun(s, run)
            && Enabled(Execute(s, run), Straggle(a, 0))
            && var t := Apply(Execute(s, run), Straggle(a, 0)); t.send == 0 && t.send in t.landed
  {
    hide RecvSide;
    var (s, a) := (Init(1, {0}), Attempt(0, map[0 := Failed], false));
    var run := [BeginPut(0), Refuse(0, 0), EndPut(0)];
    var s1 := Apply(s, run[0]);
    var s2 := Apply(s1, run[1]);
    assert s2.inflight == map[0 := a];
    var replies := a.replies;
    assert replies.Values == {Failed} by { assert replies[0] == Failed; }
    var s3 := Apply(s2, run[2]);
    assert s3 == s.(over := {a});
    OneStep(s2, run[2], []);
    OneStep(s1, run[1], [run[2]]);
    OneStep(s, run[0], [run[1], run[2]]);
    assert [run[2]] + [] == [run[2]] && [run[1]] + [run[2]] == [run[1], run[2]];
    assert run == [run[0]] + [run[1], run[2]];
    OneCareful(s2, run[2], []);
    OneCareful(s1, run[1], [run[2]]);
    OneCareful(s, run[0], [run[1], run[2]]);
  }

  lemma OneCareful(s: System, e: Event, rest: seq<Event>)
    requires Enabled(s, e) && Careful(s, e) && Legal(Apply(s, e), rest) && CarefulRun(Apply(s, e), rest)
    requires Legal(s, [e] + rest)
    ensures CarefulRun(s, [e] + rest)
  {
    hide Apply, Enabled, Careful;
    assert ([e] + rest)[1..] == rest;
  }
}
