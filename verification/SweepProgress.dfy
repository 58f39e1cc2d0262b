// What one sweep does to the index the base stands on: with a definite answer
// there, it either moves the base or counts exactly one more miss.
module SweepProgress {
  import opened Basics
  import opened OfflineState

  // How many sweeps already confirmed a miss at the base.
  function Rounds(s: RecvState): nat {
    if s.base in s.missing then s.missing[s.base].rounds else 0
  }

  // Bounding the maps keeps their smallest entries, so an entry for the base
  // survives only while fewer than the limit lie below it.
  predicate Room(s: RecvState) {
    && |Below(s.missing.Keys, s.base)| < RECOVERY_STATE_LIMIT
    && |Below(s.skipped.Keys, s.base)| < RECOVERY_STATE_LIMIT
  }

  lemma AdvanceSettles(s: RecvState)
    requires s.Valid()
    ensures Settled(Advance(s)) && Advance(s).base >= s.base
    ensures s.base !in s.Held() ==> Advance(s).base == s.base
    ensures s.base in s.Held() && s.base < MAX_U64 ==> Advance(s).base > s.base
  {
  }

  lemma RecordSettles(s: RecvState, r: nat)
    requires s.Valid()
    ensures Settled(Record(s, r)) && Record(s, r).base >= s.base && Record(s, r).known >= s.known
    ensures r == s.base < MAX_U64 ==> Record(s, r).base > s.base
  {
    AdvanceSettles(Note(s, r));
  }

  lemma FinalizeSettles(s: RecvState, misses: set<nat>, hits: set<nat>, now: int)
    requires s.Valid()
    ensures var t := Finalize(s, misses, hits, now);
            Settled(t) && t.base >= s.base && t.known == s.known
  {
    AdvanceSettles(Settle(s, misses, hits, now));
  }

  lemma {:induction false} AnswersSettle(p: Progress, targets: seq<Target>, replies: seq<Reply>)
    requires |targets| == |replies|
    requires Settled(p.state)
    ensures var q := AnswerAll(p, targets, replies).state;
            Settled(q) && q.base >= p.state.base && q.known >= p.state.known
    decreases |targets|
  {
    if targets != [] {
      RecordSettles(p.state, targets[0].index);
      AnswersSettle(Answer(p, targets[0], replies[0]), targets[1..], replies[1..]);
    }
  }

  // Everything a target other than the base leaves alone.
  ghost predicate SameAtBase(p: Progress, q: Progress) {
    && q.state.base == p.state.base
    && q.state.known >= p.state.known
    && Settled(q.state) && Room(q.state)
    && Rounds(q.state) == Rounds(p.state)
    && (p.state.base in q.misses <==> p.state.base in p.misses)
    && (p.state.base in q.hits <==> p.state.base in p.hits)
    && (forall m :: m in q.misses && m !in p.misses ==> m > p.state.base)
  }

  predicate ElsewhereThan(base: nat, t: Target) {
    t.index != base && (t.kind != Recovery ==> t.index > base)
  }

  lemma RecordElsewhere(s: RecvState, r: nat)
    requires Settled(s) && r != s.base
    ensures var t := Record(s, r);
            && Settled(t) && t.base == s.base && t.known >= s.known && Rounds(t) == Rounds(s)
            && (Room(s) ==> Room(t))
  {
    var n := Note(s, r);
    AdvanceSettles(n);
    SubsetSize(Below(Record(s, r).missing.Keys, s.base), Below(s.missing.Keys, s.base));
    SubsetSize(Below(Record(s, r).skipped.Keys, s.base), Below(s.skipped.Keys, s.base));
  }

  lemma {:induction false} AnswersElsewhere(p: Progress, targets: seq<Target>, replies: seq<Reply>)
    requires |targets| == |replies|
    requires Settled(p.state) && Room(p.state)
    requires forall t :: t in targets ==> ElsewhereThan(p.state.base, t)
    ensures SameAtBase(p, AnswerAll(p, targets, replies))
    decreases |targets|
  {
    if targets != [] {
      assert targets[0] in targets;
      if replies[0] == Hit {
        RecordElsewhere(p.state, targets[0].index);
      }
      AnswersElsewhere(Answer(p, targets[0], replies[0]), targets[1..], replies[1..]);
    }
  }

  lemma ProbesGoElsewhere(s: RecvState, now: int)
    requires Settled(s) && s.base < MAX_U64
    ensures var (t, forward) := ForwardStep(s);
            && t == s.(probe := t.probe) && t.Valid()
            && forall u :: u in forward ==> ElsewhereThan(s.base, u)
    ensures var (t, recovery) := RecoveryStep(s, now);
            && t == s.(skipped := t.skipped, lastProbeMs := t.lastProbeMs) && t.skipped.Keys == s.skipped.Keys
            && forall u :: u in recovery ==> ElsewhereThan(s.base, u)
  {
  }

  lemma TargetsStartAtBase(s: RecvState, now: int)
    requires Settled(s) && s.base < MAX_U64
    ensures var (t, targets) := BuildTargets(s, now);
            && targets != [] && targets[0] == Target(s.base, Window)
            && (forall u :: u in targets[1..] ==> ElsewhereThan(s.base, u))
            && t == s.(probe := t.probe, skipped := t.skipped, lastProbeMs := t.lastProbeMs)
            && t.skipped.Keys == s.skipped.Keys && t.Valid()
  {
    var hi := Min(MAX_U64 + 1, s.base + s.window);
    var targets := BuildTargets(s, now).1;
    var extra := ForwardStep(s).1 + RecoveryStep(ForwardStep(s).0, now).1;
    ProbesGoElsewhere(s, now);
    ProbesGoElsewhere(ForwardStep(s).0, now);
    assert RecvWindow(s) == [Target(s.base, Window)] + WindowFrom(s.base + 1, hi, s.consumed);
    assert targets == RecvWindow(s) + extra;
    assert targets[1..] == WindowFrom(s.base + 1, hi, s.consumed) + extra;
    assert forall u :: u in extra ==> ElsewhereThan(s.base, u);
    assert BuildTargets(s, now).0.skipped.Keys == s.skipped.Keys;
  }

  // A miss at the base is counted; it makes the base a gap exactly if something
  // past it is known and enough misses were counted.
  lemma SettleAtBase(s: RecvState, misses: set<nat>, hits: set<nat>, now: int)
    requires Settled(s) && Room(s)
    requires s.base in misses && s.base !in hits && forall m :: m in misses ==> m >= s.base
    ensures var t := Settle(s, misses, hits, now);
            if s.base < s.known && Rounds(s) + 1 >= GAP_MISS_ROUNDS then s.base in t.skipped
            else s.base !in t.Held() && s.base in t.missing && t.missing[s.base].rounds == Min(MAX_U32, Rounds(s) + 1)
  {
    var tallied := Tally(s.missing, misses - hits, now);
    var promoted := Promote(s.skipped, Gaps(s.base, s.known, tallied), now);
    SubsetSize(Below(Retain(promoted, now).Keys, s.base), Below(s.skipped.Keys, s.base));
    SubsetSize(Below((tallied - promoted.Keys).Keys, s.base), Below(s.missing.Keys, s.base));
  }

  // A sweep that misses the base either moves it or counts one more round.
  lemma FinalizeAtBase(s: RecvState, misses: set<nat>, hits: set<nat>, now: int)
    requires Settled(s) && Room(s) && s.base < MAX_U64
    requires s.base in misses && s.base !in hits && forall m :: m in misses ==> m >= s.base
    ensures var t := Finalize(s, misses, hits, now);
            if s.base < s.known && Rounds(s) + 1 >= GAP_MISS_ROUNDS then t.base > s.base
            else t.base == s.base && Rounds(t) == Min(MAX_U32, Rounds(s) + 1)
  {
    SettleAtBase(s, misses, hits, now);
    AdvanceSettles(Settle(s, misses, hits, now));
  }

  // A sweep that heard nothing definite of the base gives it up exactly if it was
  // already due, and otherwise leaves its count.
  lemma SettleUnmissed(s: RecvState, misses: set<nat>, hits: set<nat>, now: int)
    requires Settled(s) && Room(s)
    requires s.base !in hits && forall m :: m in misses ==> m > s.base
    ensures var t := Settle(s, misses, hits, now);
            if s.base < s.known && Rounds(s) >= GAP_MISS_ROUNDS then s.base in t.skipped
            else s.base !in t.Held()
                 && (s.base in t.missing <==> s.base in s.missing)
                 && (s.base in t.missing ==> t.missing[s.base] == s.missing[s.base])
  {
    var tallied := Tally(s.missing, misses - hits, now);
    var promoted := Promote(s.skipped, Gaps(s.base, s.known, tallied), now);
    SubsetSize(Below(Retain(promoted, now).Keys, s.base), Below(s.skipped.Keys, s.base));
    SubsetSize(Below((tallied - promoted.Keys).Keys, s.base), Below(s.missing.Keys, s.base));
  }

  lemma FinalizeUnmissed(s: RecvState, misses: set<nat>, hits: set<nat>, now: int)
    requires Settled(s) && Room(s) && s.base < MAX_U64
    requires s.base !in hits && forall m :: m in misses ==> m > s.base
    ensures var t := Finalize(s, misses, hits, now);
            if s.base < s.known && Rounds(s) >= GAP_MISS_ROUNDS then t.base > s.base
            else t.base == s.base && Rounds(t) == Rounds(s)
  {
    SettleUnmissed(s, misses, hits, now);
    AdvanceSettles(Settle(s, misses, hits, now));
  }

  predicate DefiniteAtBase(s: RecvState, now: int, replies: seq<Reply>) {
    Answers(s, now, replies) && replies != [] && replies[0] != Indeterminate
  }

  lemma DefiniteSweep(s: RecvState, now: int, replies: seq<Reply>)
    requires Settled(s) && Room(s)
    requires s.base < s.known && s.base < MAX_U64
    requires DefiniteAtBase(s, now, replies)
    ensures var t := Sweep(s, now, replies);
            t.base > s.base || (t.base == s.base && Rounds(t) == Rounds(s) + 1 < GAP_MISS_ROUNDS)
  {
    var (started, targets) := BuildTargets(s, now);
    TargetsStartAtBase(s, now);
    var p := Answer(Progress(started, {}, {}), targets[0], replies[0]);
    var q := AnswerAll(p, targets[1..], replies[1..]);
    if replies[0] == Hit {
      RecordSettles(started, s.base);
      AnswersSettle(p, targets[1..], replies[1..]);
      FinalizeSettles(q.state, q.misses, q.hits, now);
    } else {
      AnswersElsewhere(p, targets[1..], replies[1..]);
      FinalizeAtBase(q.state, q.misses, q.hits, now);
    }
  }
}
