// When the receiver looks beyond its window, over runs of the delivery protocol:
// forward probes once three finished sweeps in a row got nowhere, one index further
// each time, and recovery probes of skipped indexes, a minute apart.
module ProbeRuns {
  import opened Basics
  import opened OfflineState
  import opened DeliveryProtocol
  import opened RunProgress

  function Indexes(todo: seq<Target>, kind: Kind): seq<nat> {
    if todo == [] then []
    else (if todo[0].kind == kind then [todo[0].index] else []) + Indexes(todo[1..], kind)
  }

  lemma {:induction false} IndexesOfParts(a: seq<Target>, b: seq<Target>, kind: Kind)
    ensures Indexes(a + b, kind) == Indexes(a, kind) + Indexes(b, kind)
  {
    if a == [] {
      assert a + b == b;
    } else {
      assert (a + b)[0] == a[0] && (a + b)[1..] == a[1..] + b;
      IndexesOfParts(a[1..], b, kind);
    }
  }

  lemma {:induction false} NoSuchIndexes(todo: seq<Target>, kind: Kind)
    requires forall t :: t in todo ==> t.kind != kind
    ensures Indexes(todo, kind) == []
  {
    if todo != [] {
      NoSuchIndexes(todo[1..], kind);
    }
  }

  lemma {:induction false} HasIndexes(todo: seq<Target>, kind: Kind)
    ensures Indexes(todo, kind) != [] <==> exists t :: t in todo && t.kind == kind
    ensures forall t :: t in todo && t.kind == kind ==> t.index in Indexes(todo, kind)
  {
    if todo != [] {
      HasIndexes(todo[1..], kind);
      assert forall t :: t in todo <==> t == todo[0] || t in todo[1..];
    }
  }

  // ------------------------------------------------------------ what happened

  // What a run did so far.
  datatype Past = Past(
    quiet: seq<bool>,      // the finished sweeps since the start or the last restart: found nothing and left the base
    forward: seq<nat>,     // the forward probes since then, or since a finished sweep that was not quiet
    untried: bool,         // none since the start or the last such sweep, whatever restarts there were
    steady: bool,          // no restart since the start or the last such sweep
    recovery: seq<int>)    // the times of the recovery probes since the start or the last restart

  const NOTHING: Past := Past([], [], true, true, [])

  function Note(h: Past, s: System, e: Event): Past
    requires Enabled(s, e)
  {
    match e
    case BeginSweep(now) =>
      var todo := Apply(s, e).sweep.todo;
      h.(forward := h.forward + Indexes(todo, Forward),
      untried := h.untried && Indexes(todo, Forward) == [],
      recovery := if Indexes(todo, Recovery) == [] then h.recovery else h.recovery + [now])
    case EndSweep =>
      if s.sweep.hits == {} && Apply(s, e).recv.base == s.recv.base then h.(quiet := h.quiet + [true])
      else h.(quiet := h.quiet + [false], forward := [], untried := true, steady := true)
    case RestartReceiver => h.(quiet := [], forward := [], steady := false, recovery := [])
    case _ => h
  }

  ghost function PastOf(h: Past, s: System, run: seq<Event>): Past
    requires Legal(s, run)
    decreases |run|
  {
    if run == [] then h else PastOf(Note(h, s, run[0]), Apply(s, run[0]), run[1..])
  }

  // How many of the last finished sweeps in a row were quiet.
  function InARow(quiet: seq<bool>): nat {
    if quiet == [] || !quiet[|quiet| - 1] then 0 else 1 + InARow(quiet[..|quiet| - 1])
  }

  lemma OneMore(quiet: seq<bool>, q: bool)
    ensures InARow(quiet + [q]) == if q then InARow(quiet) + 1 else 0
  {
    assert (quiet + [q])[..|quiet|] == quiet;
  }

  lemma ThreeInARow(quiet: seq<bool>)
    ensures InARow(quiet) >= 3
       <==> |quiet| >= 3 && quiet[|quiet| - 1] && quiet[|quiet| - 2] && quiet[|quiet| - 3]
  {
    if |quiet| >= 2 {
      assert quiet[..|quiet| - 1][..|quiet| - 2] == quiet[..|quiet| - 2];
    }
  }

  // -------------------------------------------------------------- invariant

  function WindowEnd(r: RecvState): nat {
    Min(MAX_U64, r.base + r.window)
  }

  // Found nothing so far in the sweep under way.
  predicate Unmoved(s: System) {
    s.sweep.Idle? || s.sweep.hits == {}
  }

  ghost predicate Counted(s: System, h: Past) {
    && s.recv.stalled == Min(MAX_U32, InARow(h.quiet))
    && |h.forward| == Max(0, InARow(h.quiet) - 3 + (if s.sweep.Running? then 1 else 0))
  }

  ghost predicate Placed(s: System, h: Past) {
    && (forall i :: 0 <= i < |h.forward| ==> h.forward[i] == Min(MAX_U64, h.forward[0] + i))
    && (h.forward != [] ==> s.recv.probe == Min(MAX_U64, h.forward[0] + |h.forward|))
    && (h.forward != [] && Unmoved(s) ==> h.forward[0] >= WindowEnd(s.recv))
  }

  ghost predicate First(s: System, h: Past) {
    && (h.untried ==> s.recv.probe <= WindowEnd(s.recv) && s.saved.probe <= WindowEnd(s.saved))
    && (h.steady ==> (h.untried <==> h.forward == []))
    && (h.steady && h.forward != [] && Unmoved(s) ==> h.forward[0] == WindowEnd(s.recv))
  }

  ghost predicate Apart(s: System, h: Past) {
    && (forall i :: 0 < i < |h.recovery| ==> h.recovery[i] - h.recovery[i - 1] >= RECOVERY_PROBE_INTERVAL_MS)
    && (h.recovery != [] ==> s.recv.lastProbeMs == h.recovery[|h.recovery| - 1])
  }

  ghost predicate PastInv(s: System, h: Past) {
    Kept(s) && Counted(s, h) && Placed(s, h) && First(s, h) && Apart(s, h)
  }

  lemma NothingYet(window: nat, drops: set<nat>)
    requires window >= 1
    ensures PastInv(Init(window, drops), NOTHING)
  {
    InitInv(window, drops);
  }

  lemma KeptIsValid(s: System)
    requires Kept(s)
    ensures s.recv.probe <= MAX_U64 && s.saved.probe <= MAX_U64
  {
  }

  // What the steps of a sweep do to the fields that matter here.
  lemma Begun(r: RecvState, now: int)
    requires r.probe <= MAX_U64
    ensures var (t, todo) := BuildTargets(r, now);
            && t.base == r.base && t.window == r.window && t.stalled == r.stalled
            && (if r.stalled >= 3
                then Indexes(todo, Forward) == [Max(r.probe, WindowEnd(r))]
                     && t.probe == Min(MAX_U64, Max(r.probe, WindowEnd(r)) + 1)
                else Indexes(todo, Forward) == [] && t.probe == r.probe)
            && (if Indexes(todo, Recovery) == [] then t.lastProbeMs == r.lastProbeMs
                else t.lastProbeMs == now && now - r.lastProbeMs >= RECOVERY_PROBE_INTERVAL_MS)
  {
    hide DueForRecovery, WindowFrom;
    var (window, forward) := (RecvWindow(r), ForwardStep(r).1);
    var recovery := RecoveryStep(ForwardStep(r).0, now).1;
    KindsApart(window, forward, recovery, Forward);
    KindsApart(window, forward, recovery, Recovery);
  }

  lemma KindsApart(window: seq<Target>, forward: seq<Target>, recovery: seq<Target>, kind: Kind)
    requires forall t :: t in window ==> t.kind == Window
    requires |forward| <= 1 && forall t :: t in forward ==> t.kind == Forward
    requires |recovery| <= 1 && forall t :: t in recovery ==> t.kind == Recovery
    ensures kind == Forward ==>
              Indexes(window + forward + recovery, kind) == if forward == [] then [] else [forward[0].index]
    ensures kind == Recovery ==>
              Indexes(window + forward + recovery, kind) == if recovery == [] then [] else [recovery[0].index]
  {
    IndexesOfParts(window + forward, recovery, kind);
    IndexesOfParts(window, forward, kind);
    if kind != Window {
      NoSuchIndexes(window, kind);
    }
    if kind != Forward {
      NoSuchIndexes(forward, kind);
    }
    if kind != Recovery {
      NoSuchIndexes(recovery, kind);
    }
  }

  lemma Found(r: RecvState, i: nat)
    ensures var t := Record(r, i);
            && t.stalled == r.stalled && t.probe == r.probe && t.window == r.window && t.lastProbeMs == r.lastProbeMs
            && t.base >= r.base
  {
  }

  lemma Ended(r: RecvState, misses: set<nat>, hits: set<nat>, now: int)
    ensures var t := Finalize(r, misses, hits, now);
            && t.window == r.window && t.lastProbeMs == r.lastProbeMs
            && (if hits == {} && t.base == r.base
                then t.stalled == Min(MAX_U32, r.stalled + 1) && t.probe == r.probe
                else t.stalled == 0 && t.probe == WindowEnd(t))
  {
    hide Tally, Gaps, Promote, Retain, KeepSmallest, NextFree, DropBelow, Ceiling;
  }

  lemma Reloaded(r: RecvState)
    ensures var t := Restored(r);
            t.base == r.base && t.window == r.window && t.probe == r.probe && t.stalled == 0 && t.lastProbeMs == 0
  {
  }

  lemma BeginKeeps(s: System, h: Past, now: int)
    requires PastInv(s, h) && Enabled(s, BeginSweep(now))
    ensures var t := Apply(s, BeginSweep(now));
            var g := Note(h, s, BeginSweep(now));
            Counted(t, g) && Placed(t, g) && First(t, g) && Apart(t, g)
  {
    hide PastInv, Counted, Placed, First, Apart, Apply, Note;
    BeginCounts(s, h, now);
    BeginPlaces(s, h, now);
    BeginFirst(s, h, now);
    BeginApart(s, h, now);
  }

  lemma BeginCounts(s: System, h: Past, now: int)
    requires PastInv(s, h) && Enabled(s, BeginSweep(now))
    ensures Counted(Apply(s, BeginSweep(now)), Note(h, s, BeginSweep(now)))
  {
    hide Kept, BuildTargets, Indexes, InARow, First, Placed, Apart;
    KeptIsValid(s);
    Begun(s.recv, now);
  }

  lemma BeginPlaces(s: System, h: Past, now: int)
    requires PastInv(s, h) && Enabled(s, BeginSweep(now))
    ensures Placed(Apply(s, BeginSweep(now)), Note(h, s, BeginSweep(now)))
  {
    hide Kept, BuildTargets, Indexes, InARow, First, Counted, Apart;
    KeptIsValid(s);
    Begun(s.recv, now);
  }

  lemma BeginFirst(s: System, h: Past, now: int)
    requires PastInv(s, h) && Enabled(s, BeginSweep(now))
    ensures First(Apply(s, BeginSweep(now)), Note(h, s, BeginSweep(now)))
  {
    hide Kept, BuildTargets, Indexes, InARow, Counted, Apart;
    KeptIsValid(s);
    Begun(s.recv, now);
  }

  lemma BeginApart(s: System, h: Past, now: int)
    requires PastInv(s, h) && Enabled(s, BeginSweep(now))
    ensures Apart(Apply(s, BeginSweep(now)), Note(h, s, BeginSweep(now)))
  {
    hide Kept, BuildTargets, Indexes, InARow, First, Placed, Counted;
    KeptIsValid(s);
    Begun(s.recv, now);
  }

  lemma AnswerKeeps(s: System, h: Past, reply: Reply)
    requires PastInv(s, h) && Enabled(s, Answered(reply))
    ensures var t := Apply(s, Answered(reply)); Counted(t, h) && Placed(t, h) && First(t, h) && Apart(t, h)
  {
    hide Kept, Record, InARow;
    Found(s.recv, s.sweep.todo[0].index);
  }

  lemma EndKeeps(s: System, h: Past)
    requires PastInv(s, h) && Enabled(s, EndSweep)
    ensures var t := Apply(s, EndSweep);
            var g := Note(h, s, EndSweep);
            Counted(t, g) && Placed(t, g) && First(t, g) && Apart(t, g)
  {
    hide Kept, Finalize, NewGaps, InARow;
    Ended(s.recv, s.sweep.misses, s.sweep.hits, s.sweep.now);
    OneMore(h.quiet, true);
    OneMore(h.quiet, false);
  }

  lemma RestartKeeps(s: System, h: Past)
    requires PastInv(s, h) && Enabled(s, RestartReceiver)
    ensures var t := Apply(s, RestartReceiver);
            var g := Note(h, s, RestartReceiver);
            Counted(t, g) && Placed(t, g) && First(t, g) && Apart(t, g)
  {
    hide Kept, Restored;
    Reloaded(s.saved);
  }

  lemma OtherKeeps(s: System, h: Past, e: Event)
    requires PastInv(s, h) && Enabled(s, e) && Aside(e)
    ensures Note(h, s, e) == h
    ensures var t := Apply(s, e); Counted(t, h) && Placed(t, h) && First(t, h) && Apart(t, h)
  {
    hide Kept, InARow;
    StepAside(s, e);
    StepSaves(s, e);
  }

  lemma StepKeeps(s: System, h: Past, e: Event)
    requires PastInv(s, h) && Enabled(s, e)
    ensures PastInv(Apply(s, e), Note(h, s, e))
  {
    hide Kept, Counted, Placed, First, Apart, Apply;
    StepKeepsKept(s, e);
    match e
    case BeginSweep(now) => BeginKeeps(s, h, now);
    case Answered(reply) => AnswerKeeps(s, h, reply);
    case EndSweep => EndKeeps(s, h);
    case RestartReceiver => RestartKeeps(s, h);
    case _ => OtherKeeps(s, h, e);
  }

  lemma {:induction false} RunKeeps(h: Past, s: System, run: seq<Event>)
    requires PastInv(s, h) && Legal(s, run)
    ensures PastInv(Execute(s, run), PastOf(h, s, run))
    decreases |run|
  {
    hide PastInv, Apply, Enabled, Note;
    if run != [] {
      StepKeeps(s, h, run[0]);
      RunKeeps(Note(h, s, run[0]), Apply(s, run[0]), run[1..]);
    }
  }

  // --------------------------------------------------------- forward probes

  // A sweep probes forward exactly if each of the last three finished sweeps since
  // the start or the last restart found nothing and left the base.
  lemma ForwardProbeIff(window: nat, drops: set<nat>, run: seq<Event>, now: int)
    requires window >= 1 && Legal(Init(window, drops), run)
    requires Enabled(Execute(Init(window, drops), run), BeginSweep(now))
    ensures var (s, quiet) := (Execute(Init(window, drops), run), PastOf(NOTHING, Init(window, drops), run).quiet);
            ((exists t :: t in Apply(s, BeginSweep(now)).sweep.todo && t.kind == Forward)
             <==> |quiet| >= 3 && quiet[|quiet| - 1] && quiet[|quiet| - 2] && quiet[|quiet| - 3])
  {
    hide Kept, BuildTargets, Legal, Execute, PastOf, Placed, First, Apart;
    var s := Execute(Init(window, drops), run);
    NothingYet(window, drops);
    RunKeeps(NOTHING, Init(window, drops), run);
    ThreeInARow(PastOf(NOTHING, Init(window, drops), run).quiet);
    KeptIsValid(s);
    Begun(s.recv, now);
    HasIndexes(BuildTargets(s.recv, now).1, Forward);
  }

  // The first one after the start, or after a finished sweep that moved the base or
  // found something, is right behind the window, whatever restarts there were.
  lemma FirstForwardProbe(window: nat, drops: set<nat>, run: seq<Event>, now: int, t: Target)
    requires window >= 1 && Legal(Init(window, drops), run)
    requires Enabled(Execute(Init(window, drops), run), BeginSweep(now))
    requires PastOf(NOTHING, Init(window, drops), run).untried
    requires t in Apply(Execute(Init(window, drops), run), BeginSweep(now)).sweep.todo && t.kind == Forward
    ensures var r := Execute(Init(window, drops), run).recv; t.index == Min(MAX_U64, r.base + r.window)
  {
    hide Kept, BuildTargets, Legal, Execute, PastOf, Placed, Counted, Apart;
    var s := Execute(Init(window, drops), run);
    NothingYet(window, drops);
    RunKeeps(NOTHING, Init(window, drops), run);
    KeptIsValid(s);
    Begun(s.recv, now);
    HasIndexes(BuildTargets(s.recv, now).1, Forward);
  }

  // While sweeps stay quiet and nothing restarts, the k-th probe is k past the first,
  // up to the ceiling; so below it no index is probed twice.
  lemma ForwardProbesInOrder(window: nat, drops: set<nat>, run: seq<Event>, i: nat, j: nat)
    requires window >= 1 && Legal(Init(window, drops), run)
    requires i < j < |PastOf(NOTHING, Init(window, drops), run).forward|
    ensures var forward := PastOf(NOTHING, Init(window, drops), run).forward;
            && forward[j] == Min(MAX_U64, forward[0] + j)
            && (forward[i] == forward[j] ==> forward[i] == MAX_U64)
  {
    hide Kept, Legal, Execute, PastOf, First, Counted, Apart;
    NothingYet(window, drops);
    RunKeeps(NOTHING, Init(window, drops), run);
  }

  // And every index from the window's end on is reached: after q quiet sweeps in a row
  // with no restart since the last that was not, exactly q - 3 of them were probed.
  lemma ProbedIff(window: nat, drops: set<nat>, run: seq<Event>, n: nat)
    requires window >= 1 && Legal(Init(window, drops), run) && n < MAX_U64
    requires Execute(Init(window, drops), run).sweep.Idle? && PastOf(NOTHING, Init(window, drops), run).steady
    ensures var (r, past) := (Execute(Init(window, drops), run).recv, PastOf(NOTHING, Init(window, drops), run));
            n in past.forward <==> r.base + r.window <= n < r.base + r.window + (InARow(past.quiet) - 3)
  {
    hide Kept, Legal, Execute, PastOf, Apart, InARow;
    NothingYet(window, drops);
    RunKeeps(NOTHING, Init(window, drops), run);
    var (r, past) := (Execute(Init(window, drops), run).recv, PastOf(NOTHING, Init(window, drops), run));
    var first := r.base + r.window;
    if first <= n < first + (InARow(past.quiet) - 3) {
      assert past.forward[n - first] == n;
    }
  }

  // -------------------------------------------------------- recovery probes

  // Any two recovery probes without a restart between them are a minute apart, and
  // so are those in between.
  lemma RecoveryProbesApart(window: nat, drops: set<nat>, run: seq<Event>, i: nat, j: nat)
    requires window >= 1 && Legal(Init(window, drops), run)
    requires i < j < |PastOf(NOTHING, Init(window, drops), run).recovery|
    ensures var times := PastOf(NOTHING, Init(window, drops), run).recovery;
            times[j] - times[i] >= 60_000 * (j - i)
  {
    hide Kept, Legal, Execute, PastOf, First, Counted, Placed;
    NothingYet(window, drops);
    RunKeeps(NOTHING, Init(window, drops), run);
    FarApart(PastOf(NOTHING, Init(window, drops), run).recovery, i, j);
  }

  lemma {:induction false} FarApart(times: seq<int>, i: nat, j: nat)
    requires i < j < |times|
    requires forall k :: 0 < k < |times| ==> times[k] - times[k - 1] >= 60_000
    ensures times[j] - times[i] >= 60_000 * (j - i)
    decreases j - i
  {
    if i + 1 < j {
      FarApart(times, i, j - 1);
    }
  }

  // The entry that is probed carries the time, and no other entry changes.
  lemma RecoveryIsStamped(s: System, now: int, t: Target)
    requires Enabled(s, BeginSweep(now))
    requires t in Apply(s, BeginSweep(now)).sweep.todo && t.kind == Recovery
    ensures t.index in s.recv.skipped
    ensures Apply(s, BeginSweep(now)).recv.skipped
         == s.recv.skipped[t.index := SkipEntry(s.recv.skipped[t.index].atMs, now)]
  {
    hide WindowFrom;
    var (s1, forward) := ForwardStep(s.recv);
    assert t in RecoveryStep(s1, now).1;
  }
}
