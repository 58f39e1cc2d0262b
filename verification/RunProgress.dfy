// Progress of the receiver over runs of the delivery protocol, with frames, sends,
// saves and restarts in the middle of its sweeps. While an answer comes for the
// index the base stands on, the base moves on within three finished sweeps; and how
// many misses it takes to give an index up is told exactly.
module RunProgress {
  import opened Basics
  import opened OfflineState
  import opened SweepProgress
  import opened DeliveryProtocol

  // ------------------------------------------------------- what a restart keeps

  // Every finished sweep leaves its maps bounded, so a restart loses none of them.
  predicate Bounded(r: RecvState) {
    |r.missing| <= RECOVERY_STATE_LIMIT && |r.skipped| <= RECOVERY_STATE_LIMIT
  }

  function KnownAfterRestart(r: RecvState): nat {
    Max(r.known, r.base)
  }

  // What is held and what is saved are settled and within the limit.
  ghost predicate Sound(s: System) {
    Settled(s.recv) && Settled(s.saved) && Bounded(s.recv) && Bounded(s.saved)
  }

  lemma RestartKeepsAll(r: RecvState)
    requires Settled(r) && Bounded(r)
    ensures var t := Restored(r);
            && t == r.(known := KnownAfterRestart(r), stalled := 0, lastProbeMs := 0)
            && Settled(t) && Bounded(t) && Rounds(t) == Rounds(r)
  {
    KeepSmallestOfSmall(r.missing, RECOVERY_STATE_LIMIT);
    KeepSmallestOfSmall(r.skipped, RECOVERY_STATE_LIMIT);
  }

  lemma FinalizeBounds(r: RecvState, misses: set<nat>, hits: set<nat>, now: int)
    ensures Bounded(Finalize(r, misses, hits, now))
  {
    hide Tally, Gaps, Promote, Retain, KeepSmallest, Ceiling;
    var tallied := Tally(r.missing, misses - hits, now);
    var promoted := Promote(r.skipped, Gaps(r.base, r.known, tallied), now);
    KeepSmallestSize(tallied - promoted.Keys, RECOVERY_STATE_LIMIT);
    KeepSmallestSize(Retain(promoted, now), RECOVERY_STATE_LIMIT);
    var t := Settle(r, misses, hits, now);
    SubsetSize((t.skipped - Ceiling(Advance(t).base)).Keys, t.skipped.Keys);
  }

  lemma RecordBounds(r: RecvState, i: nat)
    requires Bounded(r)
    ensures Bounded(Record(r, i))
  {
    SubsetSize((r.missing - {i}).Keys, r.missing.Keys);
    SubsetSize(Record(r, i).skipped.Keys, r.skipped.Keys);
  }

  lemma BegunBounds(r: RecvState, now: int)
    requires Bounded(r)
    ensures Bounded(BuildTargets(r, now).0)
  {
    var t := BuildTargets(r, now).0;
    assert t.missing == r.missing && t.skipped.Keys == r.skipped.Keys;
  }

  // Every step keeps both states settled and within the limit.
  lemma StepBounds(s: System, e: Event)
    requires Sound(s) && Enabled(s, e)
    ensures Sound(Apply(s, e))
  {
    hide Finalize, Record, NewGaps, BuildTargets, Settled, Bounded;
    SyncSettles(s.recv);
    match e
    case RestartReceiver => RestartKeepsAll(s.saved);
    case Answered(reply) =>
      if reply == Hit {
        RecordBounds(s.recv, s.sweep.todo[0].index);
        RecordSettlesToo(s.recv, s.sweep.todo[0].index);
      }
    case EndSweep =>
      FinalizeBounds(s.recv, s.sweep.misses, s.sweep.hits, s.sweep.now);
      FinalizeSettlesToo(s.recv, s.sweep.misses, s.sweep.hits, s.sweep.now);
    case BeginSweep(now) =>
      BegunBounds(s.recv, now);
      BegunSettles(s.recv, now);
    case _ =>
  }

  lemma SyncSettles(r: RecvState)
    ensures forall n :: Settled(r.(known := n)) == Settled(r) && Bounded(r.(known := n)) == Bounded(r)
  {
  }

  lemma RecordSettlesToo(r: RecvState, i: nat)
    requires Settled(r)
    ensures Settled(Record(r, i))
  {
    RecordSettles(r, i);
  }

  lemma FinalizeSettlesToo(r: RecvState, misses: set<nat>, hits: set<nat>, now: int)
    requires Settled(r)
    ensures Settled(Finalize(r, misses, hits, now))
  {
    FinalizeSettles(r, misses, hits, now);
  }

  // A step saves what it leaves, or saves nothing.
  lemma StepSaves(s: System, e: Event)
    requires Enabled(s, e)
    ensures var t := Apply(s, e);
            t.saved == s.saved || t.saved == t.recv
    ensures e.EndSweep? ==> Apply(s, e).saved == Apply(s, e).recv
  {
    hide Finalize, Record, NewGaps, BuildTargets;
  }

  // Between sweeps, what is saved is what is held, as far as it matters here.
  ghost predicate Kept(s: System) {
    && Inv(s) && Sound(s)
    && (s.sweep.Idle? ==>
          s.recv.base == s.saved.base && s.recv.known == s.saved.known && s.recv.missing == s.saved.missing)
  }

  lemma StepKeepsKept(s: System, e: Event)
    requires Kept(s) && Enabled(s, e)
    ensures Kept(Apply(s, e))
  {
    hide Finalize, Record, NewGaps, BuildTargets, Settled, Bounded, Inv, Restored;
    StepKeepsInv(s, e);
    StepBounds(s, e);
    SavedIsOrdered(s);
    if e.RestartReceiver? {
      RestartIsSaved(s.saved);
    }
  }

  lemma SavedIsOrdered(s: System)
    requires Inv(s)
    ensures s.saved.base <= s.saved.known
  {
  }

  lemma RestartIsSaved(r: RecvState)
    requires Settled(r) && Bounded(r)
    ensures var t := Restored(r);
            t.base == r.base && t.known == KnownAfterRestart(r) && t.missing == r.missing
  {
    RestartKeepsAll(r);
  }

  lemma {:induction false} RunKeepsKept(s: System, run: seq<Event>)
    requires Kept(s) && Legal(s, run)
    ensures Kept(Execute(s, run))
    decreases |run|
  {
    hide Kept, Apply, Enabled;
    if run != [] {
      StepKeepsKept(s, run[0]);
      RunKeepsKept(Apply(s, run[0]), run[1..]);
    }
  }

  // So it is in every reachable state.
  lemma ReachableIsKept(window: nat, drops: set<nat>, run: seq<Event>)
    requires window >= 1 && Legal(Init(window, drops), run)
    ensures Kept(Execute(Init(window, drops), run))
  {
    InitInv(window, drops);
    RunKeepsKept(Init(window, drops), run);
  }

  // --------------------------------------------------------- within a sweep

  // The sweep has not asked for the base yet.
  ghost predicate Waiting(s: System, b: nat) {
    && s.sweep.Running? && s.sweep.misses == {} && s.sweep.hits == {}
    && s.sweep.todo != [] && s.sweep.todo[0] == Target(b, Window)
    && forall t :: t in s.sweep.todo[1..] ==> ElsewhereThan(b, t)
  }

  // The sweep asked for the base, did not find it there, and asks elsewhere now.
  ghost predicate Asked(s: System, b: nat) {
    && s.sweep.Running? && b !in s.sweep.hits
    && (forall m :: m in s.sweep.misses ==> m >= b)
    && forall t :: t in s.sweep.todo ==> ElsewhereThan(b, t)
  }

  // And the answer was a confirmed miss.
  ghost predicate Missed(s: System, b: nat) {
    Asked(s, b) && b in s.sweep.misses
  }

  // The base has not moved since the last sweep began.
  ghost predicate OnBase(s: System, b: nat) {
    s.recv.base == b && Settled(s.recv) && (s.sweep.Idle? || Waiting(s, b) || Asked(s, b))
  }

  // And the sweep under way, if there is one, got a definite answer or none yet.
  ghost predicate AtBase(s: System, b: nat) {
    OnBase(s, b) && (s.sweep.Idle? || Waiting(s, b) || Missed(s, b))
  }

  // Neither the base nor what is known to be sent goes back without a restart.
  lemma StepOnwards(s: System, e: Event)
    requires Settled(s.recv) && Enabled(s, e) && !e.RestartReceiver?
    ensures var t := Apply(s, e).recv;
            Settled(t) && t.base >= s.recv.base && t.known >= s.recv.known
  {
    hide Finalize, Record, NewGaps;
    match e
    case Answered(reply) =>
      if reply == Hit {
        RecordSettles(s.recv, s.sweep.todo[0].index);
      }
    case EndSweep => FinalizeSettles(s.recv, s.sweep.misses, s.sweep.hits, s.sweep.now);
    case BeginSweep(now) => BegunSettles(s.recv, now);
    case _ =>
  }

  lemma BegunSettles(r: RecvState, now: int)
    requires Settled(r)
    ensures var t := BuildTargets(r, now).0;
            Settled(t) && t.base == r.base && t.known == r.known && t.missing == r.missing
  {
  }

  lemma BeginAtBase(s: System, now: int, b: nat)
    requires OnBase(s, b) && b < MAX_U64 && Enabled(s, BeginSweep(now))
    ensures var t := Apply(s, BeginSweep(now));
            OnBase(t, b) && Waiting(t, b) && Rounds(t.recv) == Rounds(s.recv) && t.recv.known == s.recv.known
  {
    hide BuildTargets;
    TargetsStartAtBase(s.recv, now);
    BegunSettles(s.recv, now);
  }

  lemma AnswerAtBase(s: System, reply: Reply, b: nat)
    requires OnBase(s, b) && Waiting(s, b) && reply != Hit
    ensures var t := Apply(s, Answered(reply));
            OnBase(t, b) && Asked(t, b) && t.recv == s.recv && (Missed(t, b) <==> reply == ConfirmedMiss)
  {
    hide Record;
  }

  lemma AnswerElsewhere(s: System, reply: Reply, b: nat)
    requires OnBase(s, b) && Asked(s, b) && Enabled(s, Answered(reply))
    ensures var t := Apply(s, Answered(reply));
            && OnBase(t, b) && Asked(t, b) && (Missed(t, b) <==> Missed(s, b))
            && Rounds(t.recv) == Rounds(s.recv) && t.recv.known >= s.recv.known
  {
    hide Record, Room, Settled;
    assert s.sweep.todo[0] in s.sweep.todo;
    if reply == Hit {
      RecordElsewhere(s.recv, s.sweep.todo[0].index);
    }
  }

  predicate Aside(e: Event) {
    !e.BeginSweep? && !e.Answered? && !e.EndSweep? && !e.RestartReceiver?
  }

  // Everything that is not a step of the sweep leaves it alone; a sync frame may
  // raise what is known.
  lemma StepAside(s: System, e: Event)
    requires Enabled(s, e) && Aside(e)
    ensures var t := Apply(s, e);
            && t.sweep == s.sweep && t.recv == s.recv.(known := t.recv.known) && t.recv.known >= s.recv.known
  {
  }

  // ------------------------------------------------------------- catching up

  // Sweeps still needed: three for each index, less the rounds already counted.
  function SweepsLeft(r: RecvState, goal: nat): int {
    GAP_MISS_ROUNDS * (goal - r.base) - Min(Rounds(r), GAP_MISS_ROUNDS - 1)
  }

  // The goal is reached, or within the sweeps left: as many as the state needs, or
  // one less because the base already moved in the sweep under way. The saved state
  // is at the same pace, so that a restart may come at any time.
  ghost predicate Pace(s: System, goal: nat, left: int) {
    && Sound(s) && goal <= MAX_U64 && goal <= s.recv.known && goal <= KnownAfterRestart(s.saved)
    && (|| s.recv.base >= goal
        || (AtBase(s, s.recv.base) && SweepsLeft(s.recv, goal) <= left)
        || (s.sweep.Running? && GAP_MISS_ROUNDS * (goal - s.recv.base) <= left - 1))
    && (s.saved.base >= goal || SweepsLeft(s.saved, goal) <= left)
  }

  // The same of what is held alone.
  ghost predicate HeldPace(s: System, goal: nat, left: int) {
    && Settled(s.recv) && goal <= MAX_U64 && goal <= s.recv.known
    && (|| s.recv.base >= goal
        || (AtBase(s, s.recv.base) && SweepsLeft(s.recv, goal) <= left)
        || (s.sweep.Running? && GAP_MISS_ROUNDS * (goal - s.recv.base) <= left - 1))
  }

  // The first target of a sweep, which is the base, gets a definite answer, and at
  // the end of a sweep that missed the base its entry has room.
  ghost predicate Definite(s: System, e: Event) {
    && (e.Answered? && Waiting(s, s.recv.base) ==> e.reply != Indeterminate)
    && (e.EndSweep? && s.sweep.Running? && s.recv.base in s.sweep.misses ==> Room(s.recv))
  }

  function Ends(e: Event): nat {
    if e.EndSweep? then 1 else 0
  }

  lemma AnswerKeepsPace(s: System, reply: Reply, goal: nat, left: int)
    requires HeldPace(s, goal, left) && s.recv.base < goal
    requires Enabled(s, Answered(reply)) && Definite(s, Answered(reply))
    ensures HeldPace(Apply(s, Answered(reply)), goal, left)
  {
    hide Record;
    var b := s.recv.base;
    StepOnwards(s, Answered(reply));
    if AtBase(s, b) && SweepsLeft(s.recv, goal) <= left {
      if Waiting(s, b) {
        if reply == Hit {
          RecordSettles(s.recv, b);
        } else {
          AnswerAtBase(s, reply, b);
        }
      } else {
        AnswerElsewhere(s, reply, b);
      }
    }
  }

  lemma EndKeepsPace(s: System, goal: nat, left: int)
    requires HeldPace(s, goal, left) && s.recv.base < goal
    requires Enabled(s, EndSweep) && Definite(s, EndSweep)
    ensures HeldPace(Apply(s, EndSweep), goal, left - 1)
  {
    hide Finalize, NewGaps, Settled, Room;
    StepOnwards(s, EndSweep);
    if AtBase(s, s.recv.base) && SweepsLeft(s.recv, goal) <= left {
      FinalizeAtBase(s.recv, s.sweep.misses, s.sweep.hits, s.sweep.now);
    }
  }

  lemma StepKeepsHeldPace(s: System, e: Event, goal: nat, left: int)
    requires HeldPace(s, goal, left) && Enabled(s, e) && Definite(s, e) && !e.RestartReceiver?
    ensures HeldPace(Apply(s, e), goal, left - Ends(e))
  {
    hide Apply, Settled, Waiting, Missed, Room;
    StepOnwards(s, e);
    if s.recv.base < goal {
      if e.Answered? {
        AnswerKeepsPace(s, e.reply, goal, left);
      } else if e.EndSweep? {
        EndKeepsPace(s, goal, left);
      } else if e.BeginSweep? {
        BeginAtBase(s, e.now, s.recv.base);
      } else {
        AsideKeepsPace(s, e, goal, left);
      }
    }
  }

  lemma AsideKeepsPace(s: System, e: Event, goal: nat, left: int)
    requires HeldPace(s, goal, left) && Enabled(s, e) && Aside(e)
    ensures HeldPace(Apply(s, e), goal, left)
  {
    hide Apply;
    StepAside(s, e);
  }

  lemma RestartKeepsPace(s: System, goal: nat, left: int)
    requires Pace(s, goal, left)
    ensures Pace(Apply(s, RestartReceiver), goal, left)
  {
    hide Restored, Bounded, Settled;
    RestartKeepsAll(s.saved);
  }

  lemma StepKeepsPace(s: System, e: Event, goal: nat, left: int)
    requires Pace(s, goal, left) && Enabled(s, e) && Definite(s, e)
    ensures Pace(Apply(s, e), goal, left - Ends(e))
  {
    hide Apply, Settled, Bounded, AtBase, Definite, Rounds;
    if e.RestartReceiver? {
      RestartKeepsPace(s, goal, left);
    } else {
      StepBounds(s, e);
      StepSaves(s, e);
      StepKeepsHeldPace(s, e, goal, left);
    }
  }

  ghost predicate DefiniteRun(s: System, run: seq<Event>)
    requires Legal(s, run)
    decreases |run|
  {
    run != [] ==> Definite(s, run[0]) && DefiniteRun(Apply(s, run[0]), run[1..])
  }

  function Sweeps(run: seq<Event>): nat {
    if run == [] then 0 else Ends(run[0]) + Sweeps(run[1..])
  }

  lemma {:induction false} RunKeepsPace(s: System, run: seq<Event>, goal: nat, left: int)
    requires Pace(s, goal, left) && Legal(s, run) && DefiniteRun(s, run)
    ensures Pace(Execute(s, run), goal, left - Sweeps(run))
    decreases |run|
  {
    hide Pace, Apply, Enabled, Definite;
    if run != [] {
      StepKeepsPace(s, run[0], goal, left);
      RunKeepsPace(Apply(s, run[0]), run[1..], goal, left - Ends(run[0]));
    }
  }

  // From any state between sweeps, three finished sweeps for each index up to one
  // known to have been sent are enough to reach it, however often the receiver
  // restarts in between.
  lemma CatchesUp(s: System, run: seq<Event>, goal: nat)
    requires Kept(s) && s.sweep.Idle? && goal <= s.recv.known && goal <= MAX_U64
    requires Legal(s, run) && DefiniteRun(s, run)
    requires Sweeps(run) >= GAP_MISS_ROUNDS * (goal - s.recv.base)
    ensures Execute(s, run).recv.base >= goal
  {
    hide Settled, Bounded, Inv, Legal, Execute, DefiniteRun, Waiting, Missed;
    assert Rounds(s.saved) == Rounds(s.recv);
    RunKeepsPace(s, run, goal, SweepsLeft(s.recv, goal));
  }

  // In particular the base leaves the index it stands on within three sweeps.
  lemma LeavesBaseWithinThree(s: System, run: seq<Event>)
    requires Kept(s) && s.sweep.Idle? && s.recv.base < s.recv.known && s.recv.base < MAX_U64
    requires Legal(s, run) && DefiniteRun(s, run) && Sweeps(run) >= GAP_MISS_ROUNDS
    ensures Execute(s, run).recv.base > s.recv.base
  {
    hide Kept;
    CatchesUp(s, run, s.recv.base + 1);
  }

  // ------------------------------------------- how many misses give an index up

  // While the base stands on b, no sweep finds b and each has room for its entry.
  ghost predicate Absent(s: System, e: Event, b: nat) {
    && (s.recv.base == b && e.Answered? && Waiting(s, b) ==> e.reply != Hit)
    && (s.recv.base == b && e.EndSweep? ==> Room(s.recv))
  }

  ghost predicate AbsentRun(s: System, run: seq<Event>, b: nat)
    requires Legal(s, run)
    decreases |run|
  {
    run != [] ==> Absent(s, run[0], b) && AbsentRun(Apply(s, run[0]), run[1..], b)
  }

  // What a sweep's end adds to a count while the base stands on b: one if it ends
  // with something past b known to be sent (or not), having missed b (or not).
  ghost function Adds(s: System, e: Event, b: nat, known: bool, missed: bool): nat {
    if e.EndSweep? && s.recv.base == b && (b < s.recv.known) == known && Missed(s, b) == missed then 1 else 0
  }

  ghost function Count(s: System, run: seq<Event>, b: nat, known: bool, missed: bool): nat
    requires Legal(s, run)
    decreases |run|
  {
    if run == [] then 0
    else Adds(s, run[0], b, known, missed) + Count(Apply(s, run[0]), run[1..], b, known, missed)
  }

  // Misses of b confirmed by sweeps that ended with something past b known, and by
  // sweeps before that.
  ghost function KnownMisses(s: System, run: seq<Event>, b: nat): nat
    requires Legal(s, run)
  {
    Count(s, run, b, true, true)
  }

  ghost function EarlyMisses(s: System, run: seq<Event>, b: nat): nat
    requires Legal(s, run)
  {
    Count(s, run, b, false, true)
  }

  // Sweeps that ended with something past b known and no definite answer at b.
  ghost function KnownUnanswered(s: System, run: seq<Event>, b: nat): nat
    requires Legal(s, run)
  {
    Count(s, run, b, true, false)
  }

  // Given up exactly if a sweep ended after something past b was known, and three
  // misses were confirmed in all.
  predicate GivenUp(rounds: nat, early: nat, known: nat, unanswered: nat) {
    known + unanswered >= 1 && rounds + early + known >= GAP_MISS_ROUNDS
  }

  // The base stands on b, and would after a restart, with as many rounds counted.
  ghost predicate Standing(s: System, b: nat) {
    OnBase(s, b) && Sound(s) && s.saved.base == b && Rounds(s.saved) == Rounds(s.recv)
  }

  lemma IdleStands(s: System)
    requires Kept(s) && s.sweep.Idle?
    ensures Standing(s, s.recv.base)
  {
    hide Inv, Settled, Bounded;
  }

  lemma StepStanding(s: System, e: Event, b: nat)
    requires Standing(s, b) && b < MAX_U64 && Enabled(s, e) && Absent(s, e, b) && !e.EndSweep?
    ensures Standing(Apply(s, e), b) && Rounds(Apply(s, e).recv) == Rounds(s.recv)
  {
    hide Apply, Settled, Bounded, Waiting, Asked, Rounds, Absent;
    StepBounds(s, e);
    if e.RestartReceiver? {
      RestartOnBase(s, b);
    } else {
      StepSaves(s, e);
      StepOnBase(s, e, b);
    }
  }

  lemma RestartOnBase(s: System, b: nat)
    requires Standing(s, b)
    ensures var t := Apply(s, RestartReceiver);
            OnBase(t, b) && t.saved == s.saved && Rounds(t.recv) == Rounds(s.recv)
  {
    hide Restored, Bounded, Settled;
    RestartKeepsAll(s.saved);
  }

  lemma StepOnBase(s: System, e: Event, b: nat)
    requires OnBase(s, b) && b < MAX_U64 && Enabled(s, e) && Absent(s, e, b)
    requires !e.EndSweep? && !e.RestartReceiver?
    ensures var t := Apply(s, e);
            OnBase(t, b) && Rounds(t.recv) == Rounds(s.recv) && t.recv.known >= s.recv.known
  {
    hide Settled, Room, Apply;
    if e.Answered? {
      if Waiting(s, b) {
        AnswerAtBase(s, e.reply, b);
      } else {
        AnswerElsewhere(s, e.reply, b);
      }
    } else if e.BeginSweep? {
      BeginAtBase(s, e.now, b);
    } else {
      AsideOnBase(s, e, b);
    }
  }

  lemma AsideOnBase(s: System, e: Event, b: nat)
    requires OnBase(s, b) && Enabled(s, e) && Aside(e)
    ensures var t := Apply(s, e);
            OnBase(t, b) && Rounds(t.recv) == Rounds(s.recv) && t.recv.known >= s.recv.known
  {
    hide Apply;
    StepAside(s, e);
  }

  // The rounds counted for b once this sweep has ended.
  ghost function RoundsAtEnd(s: System, b: nat): nat {
    if Missed(s, b) then Min(MAX_U32, Rounds(s.recv) + 1) else Rounds(s.recv)
  }

  lemma EndOnBase(s: System, b: nat)
    requires OnBase(s, b) && b < MAX_U64 && Enabled(s, EndSweep) && Absent(s, EndSweep, b)
    ensures var t := Apply(s, EndSweep);
            && t.recv.known == s.recv.known && t.sweep.Idle? && Settled(t.recv)
            && if b < s.recv.known && RoundsAtEnd(s, b) >= GAP_MISS_ROUNDS then t.recv.base > b
               else OnBase(t, b) && Rounds(t.recv) == RoundsAtEnd(s, b)
  {
    hide Finalize, NewGaps, Room;
    if Missed(s, b) {
      FinalizeAtBase(s.recv, s.sweep.misses, s.sweep.hits, s.sweep.now);
    } else {
      FinalizeUnmissed(s.recv, s.sweep.misses, s.sweep.hits, s.sweep.now);
    }
    FinalizeSettles(s.recv, s.sweep.misses, s.sweep.hits, s.sweep.now);
  }

  // What a step leaves held and saved lies no lower than both were.
  lemma StepNoLower(s: System, e: Event, base: nat, known: nat)
    requires Sound(s) && Enabled(s, e)
    requires s.recv.base >= base && s.saved.base >= base
    requires s.recv.known >= known && KnownAfterRestart(s.saved) >= known
    ensures var t := Apply(s, e);
            && Sound(t) && t.recv.base >= base && t.saved.base >= base
            && t.recv.known >= known && KnownAfterRestart(t.saved) >= known
  {
    hide Apply, Settled, Bounded, Restored;
    StepBounds(s, e);
    StepSaves(s, e);
    if e.RestartReceiver? {
      RestartFields(s);
      RestartIsSaved(s.saved);
    } else {
      StepOnwards(s, e);
    }
  }

  lemma RestartFields(s: System)
    ensures Apply(s, RestartReceiver).recv == Restored(s.saved) && Apply(s, RestartReceiver).saved == s.saved
  {
  }

  lemma {:induction false} NeverLower(s: System, run: seq<Event>, base: nat, known: nat)
    requires Sound(s) && Legal(s, run)
    requires s.recv.base >= base && s.saved.base >= base
    requires s.recv.known >= known && KnownAfterRestart(s.saved) >= known
    ensures Execute(s, run).recv.base >= base && Execute(s, run).recv.known >= known
    decreases |run|
  {
    hide Apply, Enabled, Sound, KnownAfterRestart;
    if run != [] {
      StepNoLower(s, run[0], base, known);
      NeverLower(Apply(s, run[0]), run[1..], base, known);
    }
  }

  predicate Saves(e: Event) {
    e.Save? || e.EndSweep? || (e.Receive? && e.frame.NextSend?)
  }

  // What was saved is never lost: after a save, the end of a sweep or a sync frame
  // that told the next send, neither the base nor what is known to be sent ever falls
  // below what it was then, nor below what the frame told, whatever restarts follow.
  lemma SavedIsNeverLost(window: nat, drops: set<nat>, before: seq<Event>, e: Event, after: seq<Event>)
    requires window >= 1 && Legal(Init(window, drops), before) && Saves(e)
    requires Enabled(Execute(Init(window, drops), before), e)
    requires Legal(Apply(Execute(Init(window, drops), before), e), after)
    ensures var s := Execute(Init(window, drops), before);
            var t := Execute(Apply(s, e), after);
            && t.recv.base >= s.recv.base && t.recv.known >= s.recv.known
            && (e.Receive? ==> t.recv.known >= e.frame.next)
  {
    hide Legal, Execute;
    ReachableIsKept(window, drops, before);
    var s := Execute(Init(window, drops), before);
    StepBounds(s, e);
    SaveKeepsBoth(s, e);
    NeverLower(Apply(s, e), after, s.recv.base, if e.Receive? then Max(s.recv.known, e.frame.next) else s.recv.known);
  }

  // One exchange of sync frames aligns the two: the receiver knows of every index that
  // was used, and the sender uses none that the receiver has passed.
  lemma SyncAligns(s: System)
    requires s.send <= MAX_U64
    ensures var run := [SendNext, Receive(NextSend(s.send)), SendBase, Receive(RecvBase(s.recv.base))];
            && Legal(s, run)
            && Execute(s, run).recv.known == Max(s.recv.known, s.send)
            && Execute(s, run).send == Max(s.send, s.recv.base)
  {
    hide BuildTargets, Answer, Finalize, Restored, NewGaps, PutStatus, Reached, Legal, Execute;
    var run := [SendNext, Receive(NextSend(s.send)), SendBase, Receive(RecvBase(s.recv.base))];
    var t1 := Apply(s, run[0]);
    var t2 := Apply(t1, run[1]);
    var t3 := Apply(t2, run[2]);
    NoSteps(Apply(t3, run[3]));
    OneStep(t3, run[3], []);
    assert [run[3]] + [] == [run[3]] && [run[2]] + [run[3]] == [run[2], run[3]];
    OneStep(t2, run[2], [run[3]]);
    OneStep(t1, run[1], [run[2], run[3]]);
    assert [run[1]] + [run[2], run[3]] == [run[1], run[2], run[3]];
    OneStep(s, run[0], [run[1], run[2], run[3]]);
    assert run == [run[0]] + [run[1], run[2], run[3]];
  }

  lemma NoSteps(s: System)
    ensures Legal(s, []) && Execute(s, []) == s
  {
  }

  lemma SaveKeepsBoth(s: System, e: Event)
    requires Sound(s) && Enabled(s, e) && Saves(e)
    ensures var t := Apply(s, e);
            && t.recv.base >= s.recv.base && t.saved.base >= s.recv.base
            && t.recv.known >= s.recv.known && t.saved.known >= s.recv.known
            && (e.Receive? ==> t.recv.known >= e.frame.next && t.saved.known >= e.frame.next)
  {
    hide Finalize, NewGaps, Record, BuildTargets, Settled, Bounded;
    StepOnwards(s, e);
  }

  // Nor does the send index ever fall, below what it was or what a sync frame asked for.
  lemma {:induction false} SendNeverFalls(s: System, run: seq<Event>)
    requires Legal(s, run)
    ensures Execute(s, run).send >= s.send
    ensures run != [] && run[0].Receive? && run[0].frame.RecvBase? ==> Execute(s, run).send >= run[0].frame.base
    decreases |run|
  {
    hide Finalize, NewGaps, Record, BuildTargets, Answer, Restored;
    if run != [] {
      SendNeverFalls(Apply(s, run[0]), run[1..]);
    }
  }

  lemma {:induction false} NoneLeft(s: System, run: seq<Event>, b: nat, known: bool, missed: bool)
    requires Legal(s, run) && Sound(s) && s.recv.base > b && s.saved.base > b
    ensures Execute(s, run).recv.base > b && Count(s, run, b, known, missed) == 0
    decreases |run|
  {
    hide Apply, Enabled, Sound;
    if run != [] {
      StepNoLower(s, run[0], b + 1, 0);
      NoneLeft(Apply(s, run[0]), run[1..], b, known, missed);
    }
  }

  lemma {:induction false} NoneEarly(s: System, run: seq<Event>, b: nat)
    requires Legal(s, run) && Sound(s) && s.recv.known > b && KnownAfterRestart(s.saved) > b
    ensures EarlyMisses(s, run, b) == 0
    decreases |run|
  {
    hide Apply, Enabled, Sound;
    if run != [] {
      StepNoLower(s, run[0], 0, b + 1);
      NoneEarly(Apply(s, run[0]), run[1..], b);
    }
  }

  lemma EndStanding(s: System, b: nat)
    requires Standing(s, b) && b < MAX_U64 && Enabled(s, EndSweep) && Absent(s, EndSweep, b)
    ensures var t := Apply(s, EndSweep);
            && Sound(t) && t.saved == t.recv && t.recv.known == s.recv.known
            && if b < s.recv.known && RoundsAtEnd(s, b) >= GAP_MISS_ROUNDS then t.recv.base > b
               else Standing(t, b) && Rounds(t.recv) == RoundsAtEnd(s, b)
  {
    hide Apply, Settled, Bounded, Waiting, Asked, Rounds, Absent, RoundsAtEnd;
    StepBounds(s, EndSweep);
    StepSaves(s, EndSweep);
    EndOnBase(s, b);
  }

  // Over every run in which b is never found, restarts included: the base has left
  // b exactly if some sweep ended after something past b was known, be it by a sync
  // frame or a hit, before or in the middle of a sweep, and three misses were
  // confirmed in all.
  lemma {:induction false} GivenUpIff(s: System, run: seq<Event>, b: nat)
    requires Standing(s, b) && b < MAX_U64 && Legal(s, run) && AbsentRun(s, run, b)
    ensures var t := Execute(s, run);
            && (t.recv.base > b <==> GivenUp(Rounds(s.recv), EarlyMisses(s, run, b),
                                             KnownMisses(s, run, b), KnownUnanswered(s, run, b)))
            && (t.recv.base > b || Standing(t, b))
    decreases |run|
  {
    hide Apply, Enabled, Waiting, Missed, Asked, Sound, Settled, Room, Rounds;
    if run != [] {
      var t := Apply(s, run[0]);
      if !run[0].EndSweep? {
        StepStanding(s, run[0], b);
        GivenUpIff(t, run[1..], b);
      } else {
        EndStanding(s, b);
        if t.recv.base > b {
          NoneLeft(t, run[1..], b, true, true);
          NoneLeft(t, run[1..], b, true, false);
          NoneLeft(t, run[1..], b, false, true);
        } else {
          GivenUpIff(t, run[1..], b);
        }
        if b < s.recv.known {
          NoneEarly(t, run[1..], b);
        }
      }
    }
  }

  lemma {:induction false} CountAppend(s: System, run: seq<Event>, e: Event, b: nat, known: bool, missed: bool)
    requires Legal(s, run) && Enabled(Execute(s, run), e)
    ensures Legal(s, run + [e]) && Execute(s, run + [e]) == Apply(Execute(s, run), e)
    ensures Count(s, run + [e], b, known, missed)
         == Count(s, run, b, known, missed) + Adds(Execute(s, run), e, b, known, missed)
    ensures AbsentRun(s, run, b) && Absent(Execute(s, run), e, b) ==> AbsentRun(s, run + [e], b)
    decreases |run|
  {
    hide Apply, Enabled, Absent, Adds;
    if run == [] {
      assert run + [e] == [e] && [e][1..] == [];
    } else {
      assert (run + [e])[0] == run[0] && (run + [e])[1..] == run[1..] + [e];
      CountAppend(Apply(s, run[0]), run[1..], e, b, known, missed);
    }
  }

  // A run whose next step is the end of the sweep that gives b up.
  ghost predicate GivesUp(s: System, run: seq<Event>, b: nat) {
    && Legal(s, run) && AbsentRun(s, run, b) && Execute(s, run).recv.base == b
    && Enabled(Execute(s, run), EndSweep) && Absent(Execute(s, run), EndSweep, b)
    && Apply(Execute(s, run), EndSweep).recv.base > b
  }

  // b is given up with exactly 3 - r known misses, r being the rounds counted
  // before something past b was known; with none but the last sweep's own if r is
  // three or more. So there were three of them exactly if none was counted before.
  lemma GivenUpAfterExactly(s: System, run: seq<Event>, b: nat)
    requires Standing(s, b) && b < MAX_U64 && GivesUp(s, run, b)
    requires Legal(s, run + [EndSweep])
    ensures var (known, before) := (KnownMisses(s, run + [EndSweep], b),
                                    Rounds(s.recv) + EarlyMisses(s, run + [EndSweep], b));
            && known == (if before < GAP_MISS_ROUNDS then GAP_MISS_ROUNDS - before
                         else if Missed(Execute(s, run), b) then 1 else 0)
            && (known >= GAP_MISS_ROUNDS <==> before == 0)
  {
    hide Apply, Enabled, Absent, Standing, Rounds, Legal, AbsentRun, Execute, Count, Missed;
    CountAppend(s, run, EndSweep, b, true, true);
    CountAppend(s, run, EndSweep, b, true, false);
    CountAppend(s, run, EndSweep, b, false, true);
    GivenUpIff(s, run, b);
    GivenUpIff(s, run + [EndSweep], b);
    LeavesWhenKnown(s, run, b);
  }

  // The sweep that gives b up ends with something past b known.
  lemma LeavesWhenKnown(s: System, run: seq<Event>, b: nat)
    requires Standing(s, b) && b < MAX_U64 && GivesUp(s, run, b)
    ensures Execute(s, run).recv.known > b
  {
    hide Apply, Enabled, Absent, Rounds, Legal, AbsentRun, Execute, Waiting, Asked;
    GivenUpIff(s, run, b);
    EndStanding(Execute(s, run), b);
  }
}
