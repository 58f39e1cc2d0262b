// Does an index take three misses, each confirmed while something past it was known
// to be sent, to be skipped? Said about the log of finished sweeps: yes when no
// earlier miss was logged, and a run of the whole protocol shows it fails otherwise.
module GapMisses {
  import opened Basics
  import opened OfflineState
  import opened SweepProgress
  import opened DeliveryProtocol

  // Logged misses of x by sweeps that ended with something past x known.
  function KnownCount(log: seq<SweepLog>, x: nat): nat {
    if log == [] then 0
    else KnownCount(log[..|log| - 1], x) + (if x in log[|log| - 1].misses && x < log[|log| - 1].known then 1 else 0)
  }

  // And by sweeps before that.
  function EarlyCount(log: seq<SweepLog>, x: nat): nat {
    if log == [] then 0
    else EarlyCount(log[..|log| - 1], x) + (if x in log[|log| - 1].misses && x >= log[|log| - 1].known then 1 else 0)
  }

  lemma {:induction false} CountsSplit(log: seq<SweepLog>, x: nat)
    ensures MissCount(log, x) == KnownCount(log, x) + EarlyCount(log, x)
  {
    if log != [] {
      CountsSplit(log[..|log| - 1], x);
    }
  }

  lemma {:induction false} CountsGrow(log: seq<SweepLog>, n: nat, x: nat)
    requires n <= |log|
    ensures KnownCount(log[..n], x) <= KnownCount(log, x) && EarlyCount(log[..n], x) <= EarlyCount(log, x)
  {
    if n == |log| {
      assert log[..n] == log;
    } else {
      CountsGrow(log[..|log| - 1], n, x);
      assert log[..|log| - 1][..n] == log[..n];
    }
  }

  // An index the base has gone by without its message was skipped, below known,
  // with at least as many known misses as its early ones leave missing to three.
  ghost predicate SkippedAfterKnownMisses(log: seq<SweepLog>, x: nat) {
    exists j :: 0 <= j < |log| && x in log[j].skipped && x < log[j].known
             && KnownCount(log[..j + 1], x) + EarlyCount(log[..j + 1], x) >= GAP_MISS_ROUNDS
  }

  lemma PassedAfterKnownMisses(window: nat, drops: set<nat>, run: seq<Event>, x: nat)
    requires window >= 1 && Legal(Init(window, drops), run)
    requires x < Execute(Init(window, drops), run).recv.base
    ensures var s := Execute(Init(window, drops), run);
            x in s.authentic || SkippedAfterKnownMisses(s.log, x)
  {
    hide Legal, Execute;
    PassedIndexesAreJustified(window, drops, run, x);
    var log := Execute(Init(window, drops), run).log;
    if SkippedAfterMisses(log, x) {
      var j :| 0 <= j < |log| && x in log[j].skipped && x < log[j].known
            && MissCount(log[..j + 1], x) >= GAP_MISS_ROUNDS;
      CountsSplit(log[..j + 1], x);
    }
  }

  // In particular, without an early miss it took three known ones.
  lemma NoEarlyMissThreeKnown(window: nat, drops: set<nat>, run: seq<Event>, x: nat)
    requires window >= 1 && Legal(Init(window, drops), run)
    requires x < Execute(Init(window, drops), run).recv.base
    requires EarlyCount(Execute(Init(window, drops), run).log, x) == 0
    ensures var s := Execute(Init(window, drops), run);
            x in s.authentic || KnownCount(s.log, x) >= GAP_MISS_ROUNDS
  {
    hide Legal, Execute;
    PassedAfterKnownMisses(window, drops, run, x);
    var log := Execute(Init(window, drops), run).log;
    if SkippedAfterKnownMisses(log, x) {
      var j :| 0 <= j < |log| && x in log[j].skipped && x < log[j].known
            && KnownCount(log[..j + 1], x) + EarlyCount(log[..j + 1], x) >= GAP_MISS_ROUNDS;
      CountsGrow(log, j + 1, x);
    }
  }

  // ------------------------------------------------- a run in which it fails

  // Two sweeps miss indexes 0 and 1 before anything is sent. Then both messages
  // are stored, the first is lost, and one more sweep misses 0 and finds 1.
  function MissesZero(): seq<Event> {
    [BeginSweep(0), Answered(ConfirmedMiss)]
  }

  function AlsoMissesOne(): seq<Event> {
    [Answered(ConfirmedMiss), EndSweep]
  }

  function FindsOne(): seq<Event> {
    [Answered(Hit), EndSweep]
  }

  function QuietSweep(): seq<Event> {
    MissesZero() + AlsoMissesOne()
  }

  function TwoSends(): seq<Event> {
    [BeginPut(0), Deliver(0, 0, false), EndPut(0), BeginPut(1), Deliver(1, 0, false), EndPut(1), Lose(0, 0)]
  }

  function LastSweep(): seq<Event> {
    MissesZero() + FindsOne()
  }

  function EarlyMissesRun(): seq<Event> {
    QuietSweep() + (QuietSweep() + (TwoSends() + LastSweep()))
  }

  // A receiver that has found and skipped nothing, at index 0 with window 2.
  ghost predicate Quiet(r: RecvState, rounds: nat) {
    && Settled(r) && r.base == 0 && r.window == 2 && r.consumed == {} && r.skipped == map[] && r.known == 0
    && r.missing.Keys <= {0, 1} && Rounds(r) == rounds && r.stalled <= rounds
  }

  lemma TwoTargets(r: RecvState, rounds: nat)
    requires Quiet(r, rounds) && rounds <= 2
    ensures BuildTargets(r, 0) == (r, [Target(0, Window), Target(1, Window)])
  {
    assert WindowFrom(1, 2, {}) == [Target(1, Window)];
    assert WindowFrom(0, 2, {}) == [Target(0, Window)] + [Target(1, Window)];
    assert RecvWindow(r) == [Target(0, Window), Target(1, Window)];
    assert DueForRecovery(r, 0) == {};
    assert ForwardStep(r) == (r, []);
    assert RecoveryStep(r, 0) == (r, []);
    assert RecvWindow(r) + [] + [] == RecvWindow(r);
  }

  lemma QuietSettle(r: RecvState, rounds: nat)
    requires Quiet(r, rounds) && rounds <= 1
    ensures var t := Settle(r, {0, 1}, {}, 0);
            && t == r.(missing := t.missing, skipped := map[])
            && t.missing.Keys <= {0, 1} && 0 in t.missing && t.missing[0].rounds == rounds + 1
  {
    hide Tally, Gaps, Promote, Retain, KeepSmallest;
    QuietRounds(r, rounds);
    var counted: set<nat> := {0, 1} - {};
    assert counted == {0, 1};
    var tallied := Tally(r.missing, counted, 0);
    NoGapsAtZero(tallied);
    NoSkips();
    TallyKeys(r.missing, counted, 0);
    KeptIsSubmap(tallied, RECOVERY_STATE_LIMIT);
    KeepSmallestOfSmall(r.skipped, RECOVERY_STATE_LIMIT);
    assert tallied - r.skipped.Keys == tallied;
  }

  lemma QuietRounds(r: RecvState, rounds: nat)
    requires Quiet(r, rounds) && rounds <= 1
    ensures var t := Settle(r, {0, 1}, {}, 0); 0 in t.missing && t.missing[0].rounds == rounds + 1
  {
    hide Settle, Room;
    RoomAtZero(r);
    SettleAtBase(r, {0, 1}, {}, 0);
  }

  lemma NoGapsAtZero(tallied: map<nat, MissEntry>)
    ensures Gaps(0, 0, tallied) == {}
  {
  }

  lemma NoSkips()
    ensures Promote(map[], {}, 0) == map[] == Retain(map[], 0)
  {
  }

  lemma TallyKeys(missing: map<nat, MissEntry>, misses: set<nat>, now: int)
    ensures Tally(missing, misses, now).Keys == missing.Keys + misses
  {
  }

  lemma RoomAtZero(r: RecvState)
    requires r.base == 0
    ensures Room(r)
  {
    assert Below(r.missing.Keys, 0) == {} && Below(r.skipped.Keys, 0) == {};
  }

  lemma QuietFinalize(r: RecvState, rounds: nat)
    requires Quiet(r, rounds) && rounds <= 1
    ensures Quiet(Finalize(r, {0, 1}, {}, 0), rounds + 1)
  {
    hide Settle;
    QuietSettle(r, rounds);
    var t := Settle(r, {0, 1}, {}, 0);
    AdvanceSettles(t);
  }

  lemma MissesZeroRuns(s: System, rounds: nat)
    requires s.sweep.Idle? && Quiet(s.recv, rounds) && rounds <= 2
    ensures Legal(s, MissesZero())
    ensures Execute(s, MissesZero()) == s.(sweep := Running(0, [Target(1, Window)], {0}, {}))
  {
    hide BuildTargets, Record, Quiet;
    TwoTargets(s.recv, rounds);
    var run := MissesZero();
    var s1 := Apply(s, run[0]);
    var s2 := Apply(s1, run[1]);
    assert s1.sweep.todo[1..] == [Target(1, Window)] && {} + {0} == {0};
    assert s2 == s.(sweep := Running(0, [Target(1, Window)], {0}, {}));
    OneStep(s1, run[1], []);
    OneStep(s, run[0], [run[1]]);
    assert [run[1]] + [] == [run[1]] && run == [run[0]] + [run[1]];
  }

  lemma AlsoMissesOneRuns(s: System, rounds: nat)
    requires s.sweep == Running(0, [Target(1, Window)], {0}, {}) && Quiet(s.recv, rounds) && rounds <= 1
    ensures Legal(s, AlsoMissesOne())
    ensures var t := Execute(s, AlsoMissesOne());
            && t == s.(recv := t.recv, saved := t.recv, log := t.log, sweep := Idle)
            && Quiet(t.recv, rounds + 1)
            && (exists gaps :: t.log == s.log + [SweepLog({0, 1}, gaps, 0)])
  {
    hide Finalize, NewGaps, Record, Settled, Rounds;
    QuietFinalize(s.recv, rounds);
    var run := AlsoMissesOne();
    var s1 := Apply(s, run[0]);
    var s2 := Apply(s1, run[1]);
    assert {0} + {1} == {0, 1} && {0, 1} - {} == {0, 1};
    assert s1 == s.(sweep := Running(0, [], {0, 1}, {}));
    assert Logged(s1) == SweepLog({0, 1}, NewGaps(s1.recv, {0, 1}, 0), 0);
    OneStep(s1, run[1], []);
    OneStep(s, run[0], [run[1]]);
    assert [run[1]] + [] == [run[1]] && run == [run[0]] + [run[1]];
  }

  // What the system does in a quiet sweep.
  lemma QuietSweepRuns(s: System, rounds: nat)
    requires s.sweep.Idle? && Quiet(s.recv, rounds) && rounds <= 1
    ensures Legal(s, QuietSweep())
    ensures var t := Execute(s, QuietSweep());
            && t == s.(recv := t.recv, saved := t.recv, log := t.log)
            && Quiet(t.recv, rounds + 1)
            && (exists gaps :: t.log == s.log + [SweepLog({0, 1}, gaps, 0)])
  {
    hide Legal, Execute, Quiet;
    MissesZeroRuns(s, rounds);
    var t := Execute(s, MissesZero());
    AlsoMissesOneRuns(t, rounds);
    RunsAppend(s, MissesZero(), AlsoMissesOne());
  }

  ghost function Logged(s: System): SweepLog
    requires s.sweep.Running?
  {
    SweepLog(Counted(s.sweep), NewGaps(s.recv, Counted(s.sweep), s.sweep.now), s.recv.known)
  }

  // Two messages under indexes 0 and 1, of which the drop loses the first.
  lemma TwoSendsRun(s: System)
    requires s.inflight == map[] && s.send == 0 && s.drops == {0} && s.store == {} && s.landed == {}
    ensures Legal(s, TwoSends())
    ensures Execute(s, TwoSends())
         == s.(send := 2, store := {(0, 1)}, landed := {0, 1}, over := s.over + {Sent(0)} + {Sent(1)})
  {
    hide Legal, Execute;
    var s3 := s.(send := 1, store := {(0, 0)}, landed := {0}, over := s.over + {Sent(0)});
    var s6 := s3.(send := 2, store := {(0, 0), (0, 1)}, landed := {0, 1}, over := s3.over + {Sent(1)});
    assert s.store + {(0, 0)} == {(0, 0)} && s.landed + {0} == {0};
    assert s3.landed + {1} == {0, 1} && s3.store + {(0, 1)} == {(0, 0), (0, 1)};
    OneSendRuns(s, 0, 0);
    OneSendRuns(s3, 1, 1);
    LoseRuns(s6);
    assert {(0, 0), (0, 1)} - {(0, 0)} == {(0, 1)};
    RunsAppend(s3, OneSend(1), [Lose(0, 0)]);
    RunsAppend(s, OneSend(0), OneSend(1) + [Lose(0, 0)]);
    assert TwoSends() == OneSend(0) + (OneSend(1) + [Lose(0, 0)]);
  }

  lemma LoseRuns(s: System)
    ensures Legal(s, [Lose(0, 0)])
    ensures Execute(s, [Lose(0, 0)]) == s.(store := s.store - {(0, 0)})
  {
    OneStep(s, Lose(0, 0), []);
    assert [Lose(0, 0)] + [] == [Lose(0, 0)];
  }

  function OneSend(id: nat): seq<Event> {
    [BeginPut(id), Deliver(id, 0, false), EndPut(id)]
  }

  function Sent(index: nat): Attempt {
    Attempt(index, map[0 := Stored], true)
  }

  lemma OneSendRuns(s: System, id: nat, index: nat)
    requires s.inflight == map[] && s.send == index && s.drops == {0} && (0, index) !in s.store
    ensures Legal(s, OneSend(id))
    ensures Execute(s, OneSend(id))
         == s.(send := index + 1, store := s.store + {(0, index)}, landed := s.landed + {index},
               over := s.over + {Sent(index)})
  {
    var run := OneSend(id);
    var s1 := Apply(s, run[0]);
    var s2 := Apply(s1, run[1]);
    var s3 := Apply(s2, run[2]);
    var replies: map<nat, PutReply> := map[0 := Stored];
    assert s2.inflight[id].replies == replies && Stored in replies.Values by { assert replies[0] == Stored; }
    assert s2.inflight[id] == Sent(index);
    assert s3 == s.(send := index + 1, store := s.store + {(0, index)}, landed := s.landed + {index}, over := s3.over);
    OneStep(s2, run[2], []);
    OneStep(s1, run[1], [run[2]]);
    OneStep(s, run[0], [run[1], run[2]]);
    assert [run[2]] + [] == [run[2]] && [run[1]] + [run[2]] == [run[1], run[2]];
    assert run == [run[0]] + [run[1], run[2]];
  }

  lemma FoundOne(r: RecvState)
    requires Quiet(r, 2)
    ensures var t := Record(r, 1);
            Settled(t) && t.base == 0 && t.known == 2 && Rounds(t) == 2
  {
    RecordElsewhere(r, 1);
  }

  lemma GivenUpAtEnd(r: RecvState)
    requires Settled(r) && r.base == 0 && r.known == 2 && Rounds(r) == 2
    ensures Finalize(r, {0}, {1}, 0).base > 0
  {
    RoomAtZero(r);
    FinalizeAtBase(r, {0}, {1}, 0);
  }

  lemma FindsOneRuns(s: System)
    requires s.sweep == Running(0, [Target(1, Window)], {0}, {}) && Quiet(s.recv, 2) && 1 in s.landed
    ensures Legal(s, FindsOne())
    ensures var t := Execute(s, FindsOne());
            && t.recv.base > 0 && t.authentic == s.authentic + {1}
            && (exists gaps :: t.log == s.log + [SweepLog({0}, gaps, 2)])
  {
    hide Finalize, NewGaps, Record, Settled, Rounds;
    FoundOne(s.recv);
    var run := FindsOne();
    var s1 := Apply(s, run[0]);
    assert {} + {1} == {1} && {0} - {1} == {0};
    assert s1.sweep == Running(0, [], {0}, {1}) && s1.recv == Record(s.recv, 1);
    GivenUpAtEnd(s1.recv);
    assert Logged(s1) == SweepLog({0}, NewGaps(s1.recv, {0}, 0), 2);
    OneStep(s1, run[1], []);
    OneStep(s, run[0], [run[1]]);
    assert [run[1]] + [] == [run[1]] && run == [run[0]] + [run[1]];
  }

  lemma LastSweepRuns(s: System)
    requires s.sweep.Idle? && Quiet(s.recv, 2) && 1 in s.landed
    ensures Legal(s, LastSweep())
    ensures var t := Execute(s, LastSweep());
            && t.recv.base > 0 && t.authentic == s.authentic + {1}
            && (exists gaps :: t.log == s.log + [SweepLog({0}, gaps, 2)])
  {
    hide Legal, Execute, Quiet;
    MissesZeroRuns(s, 2);
    var t := Execute(s, MissesZero());
    FindsOneRuns(t);
    RunsAppend(s, MissesZero(), FindsOne());
  }

  // The receiver goes past index 0 without its message, with a single miss
  // confirmed since anything past it was known and two before that.
  lemma EarlyMissesCount()
    ensures Legal(Init(2, {0}), EarlyMissesRun())
    ensures var s := Execute(Init(2, {0}), EarlyMissesRun());
            && s.recv.base > 0 && 0 !in s.authentic
            && KnownCount(s.log, 0) == 1 && EarlyCount(s.log, 0) == 2
  {
    hide Legal, Execute, Quiet;
    var s0 := Init(2, {0});
    QuietStart();
    QuietSweepRuns(s0, 0);
    var s1 := Execute(s0, QuietSweep());
    QuietSweepRuns(s1, 1);
    var s2 := Execute(s1, QuietSweep());
    TwoSendsRun(s2);
    var s3 := Execute(s2, TwoSends());
    LastSweepRuns(s3);
    RunsAppend(s2, TwoSends(), LastSweep());
    RunsAppend(s1, QuietSweep(), TwoSends() + LastSweep());
    RunsAppend(s0, QuietSweep(), QuietSweep() + (TwoSends() + LastSweep()));
    var s4 := Execute(s3, LastSweep());
    var a :| s1.log == s0.log + [SweepLog({0, 1}, a, 0)];
    var b :| s2.log == s1.log + [SweepLog({0, 1}, b, 0)];
    var c :| s4.log == s3.log + [SweepLog({0}, c, 2)];
    CountsOfThree(s4.log, a, b, c);
  }

  lemma QuietStart()
    ensures Quiet(Fresh(2), 0)
  {
  }

  lemma CountsOfThree(log: seq<SweepLog>, a: set<nat>, b: set<nat>, c: set<nat>)
    requires log == [SweepLog({0, 1}, a, 0), SweepLog({0, 1}, b, 0), SweepLog({0}, c, 2)]
    ensures KnownCount(log, 0) == 1 && EarlyCount(log, 0) == 2
  {
    assert log[..2][..1] == log[..1] && log[..1][..0] == [];
    assert KnownCount(log[..1], 0) == 0 && EarlyCount(log[..1], 0) == 1;
    assert KnownCount(log[..2], 0) == 0 && EarlyCount(log[..2], 0) == 2;
  }
}
