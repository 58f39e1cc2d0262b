// The receiving half of the offline delivery protocol as a value, and the
// functions that say what each step of termchat-i2p.py does to it. The class in
// OfflineEndpoint.dfy updates its fields in place and is proved against these.
module OfflineState {
  import opened Basics

  const GAP_MISS_ROUNDS: nat := 3
  const FORWARD_PROBE_STALL_ROUNDS: nat := 3
  const RECOVERY_STATE_LIMIT: nat := 512
  const SKIPPED_RETENTION_MS: int := 14 * 24 * 60 * 60 * 1000
  const RECOVERY_PROBE_INTERVAL_MS: int := 60 * 1000

  datatype MissEntry = MissEntry(rounds: nat, firstMs: int, lastMs: int)

  datatype SkipEntry = SkipEntry(atMs: int, probeMs: int)

  datatype RecvState = RecvState(
    base: nat,
    window: nat,
    consumed: set<nat>,
    known: nat,
    highest: Option<nat>,
    missing: map<nat, MissEntry>,
    skipped: map<nat, SkipEntry>,
    probe: nat,
    stalled: nat,
    lastProbeMs: int)
  {
    // What the source's parsers guarantee of every state they build.
    predicate Valid() {
      base <= MAX_U64 && 1 <= window && probe <= MAX_U64
    }

    // The indexes the base may step over.
    function Held(): set<nat> {
      consumed + skipped.Keys
    }
  }

  function Fresh(window: nat): RecvState {
    RecvState(0, window, {}, 0, None, map[], map[], 0, 0, 0)
  }

  // ---------------------------------------------------------------- advance

  function NextFree(b: nat, held: set<nat>): (n: nat)
    ensures b <= n
    ensures b <= MAX_U64 ==> n <= MAX_U64
    ensures forall x :: b <= x < n ==> x in held
    ensures n in held ==> n >= MAX_U64
    decreases MAX_U64 - b
  {
    if b >= MAX_U64 || b !in held then b else NextFree(b + 1, held)
  }

  // The walk stops at the least index that is not held, or at the u64 ceiling.
  lemma NextFreeUnique(b: nat, held: set<nat>, n: nat)
    requires b <= n <= MAX_U64
    requires forall x :: b <= x < n ==> x in held
    requires n in held ==> n == MAX_U64
    ensures NextFree(b, held) == n
  {
    var f := NextFree(b, held);
    assert f < n ==> f in held;
    assert n < f ==> n in held;
  }

  function DropBelow(consumed: set<nat>, base: nat): set<nat> {
    set x | x in consumed && x >= base
  }

  // At the ceiling the source forgets the last index instead of stepping over it.
  function Ceiling(b: nat): set<nat> {
    if b == MAX_U64 then {MAX_U64} else {}
  }

  function Advance(s: RecvState): RecvState {
    var b := NextFree(s.base, s.Held());
    s.(base := b, consumed := DropBelow(s.consumed, b) - Ceiling(b), skipped := s.skipped - Ceiling(b))
  }

  // The base stands on an index that is neither consumed nor skipped.
  predicate Settled(s: RecvState) {
    s.Valid() && s.base !in s.Held()
  }

  // ----------------------------------------------------------------- record

  function Raise(highest: Option<nat>, r: nat): Option<nat> {
    Some(if highest.None? then r else Max(highest.value, r))
  }

  // Everything record_authenticated_offline_index does before it advances.
  function Note(s: RecvState, r: nat): RecvState {
    s.(known := Max(s.known, Min(MAX_U64, r + 1)),
    highest := Raise(s.highest, r),
    missing := s.missing - {r},
    skipped := s.skipped - {r},
    consumed := if r >= s.base then s.consumed + {r} else s.consumed)
  }

  function Record(s: RecvState, r: nat): RecvState {
    Advance(Note(s, r))
  }

  // --------------------------------------------------------------- finalize

  function Bump(missing: map<nat, MissEntry>, k: nat, now: int): MissEntry {
    if k in missing
    then MissEntry(Min(MAX_U32, missing[k].rounds + 1), missing[k].firstMs, now)
    else MissEntry(1, now, now)
  }

  function Tally(missing: map<nat, MissEntry>, confirmed: set<nat>, now: int): map<nat, MissEntry> {
    map k | k in missing.Keys + confirmed :: if k in confirmed then Bump(missing, k, now) else missing[k]
  }

  predicate GapConfirmed(base: nat, known: nat, entry: MissEntry, k: nat) {
    entry.rounds >= GAP_MISS_ROUNDS && base <= k < known
  }

  function Gaps(base: nat, known: nat, tallied: map<nat, MissEntry>): set<nat> {
    set k | k in tallied && GapConfirmed(base, known, tallied[k], k)
  }

  function Promote(skipped: map<nat, SkipEntry>, gaps: set<nat>, now: int): map<nat, SkipEntry> {
    map k | k in skipped.Keys + gaps :: if k in skipped then skipped[k] else SkipEntry(now, 0)
  }

  function Retain(skipped: map<nat, SkipEntry>, now: int): map<nat, SkipEntry> {
    map k | k in skipped && now - skipped[k].atMs <= SKIPPED_RETENTION_MS :: skipped[k]
  }

  function Bound(s: RecvState): RecvState {
    s.(missing := KeepSmallest(s.missing, RECOVERY_STATE_LIMIT),
    skipped := KeepSmallest(s.skipped, RECOVERY_STATE_LIMIT))
  }

  // Miss counting, gap promotion, retention and bounding, up to the advance.
  function Settle(s: RecvState, misses: set<nat>, hits: set<nat>, now: int): RecvState {
    var tallied := Tally(s.missing, misses - hits, now);
    var promoted := Promote(s.skipped, Gaps(s.base, s.known, tallied), now);
    Bound(s.(missing := tallied - promoted.Keys, skipped := Retain(promoted, now)))
  }

  function Finalize(s: RecvState, misses: set<nat>, hits: set<nat>, now: int): RecvState {
    var t := Advance(Settle(s, misses, hits, now));
    if t.base != s.base || hits != {}
    then t.(stalled := 0, probe := Min(MAX_U64, t.base + t.window))
    else t.(stalled := Min(MAX_U32, s.stalled + 1))
  }

  // ---------------------------------------------------------------- targets

  datatype Kind = Window | Forward | Recovery

  datatype Target = Target(index: nat, kind: Kind)

  function WindowFrom(lo: nat, hi: nat, consumed: set<nat>): (r: seq<Target>)
    ensures forall t :: t in r ==> lo <= t.index < hi && t.index !in consumed && t.kind == Window
    ensures forall i :: lo <= i < hi && i !in consumed ==> Target(i, Window) in r
    decreases hi - lo
  {
    if lo >= hi then []
    else if lo in consumed then WindowFrom(lo + 1, hi, consumed)
    else [Target(lo, Window)] + WindowFrom(lo + 1, hi, consumed)
  }

  function RecvWindow(s: RecvState): seq<Target> {
    WindowFrom(s.base, Min(MAX_U64 + 1, s.base + s.window), s.consumed)
  }

  function ForwardIndex(s: RecvState): nat {
    Max(s.probe, Min(MAX_U64, s.base + s.window))
  }

  function ForwardStep(s: RecvState): (RecvState, seq<Target>) {
    if s.stalled >= FORWARD_PROBE_STALL_ROUNDS && ForwardIndex(s) <= MAX_U64
    then (s.(probe := Min(MAX_U64, ForwardIndex(s) + 1)), [Target(ForwardIndex(s), Forward)])
    else (s, [])
  }

  function DueForRecovery(s: RecvState, now: int): set<nat> {
    set k | k in s.skipped && now - s.skipped[k].probeMs >= RECOVERY_PROBE_INTERVAL_MS
  }

  function RecoveryStep(s: RecvState, now: int): (RecvState, seq<Target>) {
    var due := DueForRecovery(s, now);
    if now - s.lastProbeMs >= RECOVERY_PROBE_INTERVAL_MS && due != {} then
      var k := Least(due);
      (s.(skipped := s.skipped[k := s.skipped[k].(probeMs := now)], lastProbeMs := now), [Target(k, Recovery)])
    else (s, [])
  }

  function BuildTargets(s: RecvState, now: int): (RecvState, seq<Target>) {
    var (s1, forward) := ForwardStep(s);
    var (s2, recovery) := RecoveryStep(s1, now);
    (s2, RecvWindow(s) + forward + recovery)
  }

  // ------------------------------------------------------------------ drops

  datatype PutReply = Stored | AlreadyThere | Failed

  // DeadDropClient.put over the replies of the drops: any OK wins, then any
  // EXISTS, else FAIL.
  function PutStatus(replies: set<PutReply>): PutReply {
    if Stored in replies then Stored
    else if AlreadyThere in replies then AlreadyThere
    else Failed
  }

  // ------------------------------------------------------------------ sweep

  // One drop's answer to a GET: a blob that is or is not an authentic message
  // not seen before, a confirmed miss, or no usable answer.
  datatype DropReply = Blob(authentic: bool) | Miss | NoAnswer

  datatype Reply = Hit | ConfirmedMiss | Indeterminate

  predicate HasBlob(replies: seq<DropReply>) {
    exists r :: r in replies && r.Blob?
  }

  function Classify(replies: seq<DropReply>): Reply {
    if HasBlob(replies) then
      if Blob(true) in replies then Hit else Indeterminate
    else if Miss in replies then ConfirmedMiss
    else Indeterminate
  }

  datatype Progress = Progress(state: RecvState, misses: set<nat>, hits: set<nat>)

  function Answer(p: Progress, t: Target, reply: Reply): Progress {
    match reply
    case Hit => Progress(Record(p.state, t.index), p.misses, p.hits + {t.index})
    case ConfirmedMiss => if t.kind != Recovery then p.(misses := p.misses + {t.index}) else p
    case Indeterminate => p
  }

  function AnswerAll(p: Progress, targets: seq<Target>, replies: seq<Reply>): Progress
    requires |targets| == |replies|
    decreases |targets|
  {
    if targets == [] then p
    else AnswerAll(Answer(p, targets[0], replies[0]), targets[1..], replies[1..])
  }

  predicate Answers(s: RecvState, now: int, replies: seq<Reply>) {
    |replies| == |BuildTargets(s, now).1|
  }

  // One whole pass of poll_deaddrops with nothing interleaved.
  function Sweep(s: RecvState, now: int, replies: seq<Reply>): RecvState
    requires Answers(s, now, replies)
  {
    var (started, targets) := BuildTargets(s, now);
    var done := AnswerAll(Progress(started, {}, {}), targets, replies);
    Finalize(done.state, done.misses, done.hits, now)
  }

  // -------------------------------------------------------------- restarting

  // What a restart makes of a saved state: the persisted fields come back, the
  // rest is reset (load_offline_state after reset_offline_recovery_state).
  function Restored(saved: RecvState): RecvState {
    Bound(saved.(known := Max(saved.known, saved.base), stalled := 0, lastProbeMs := 0))
  }
}
