// What one sweep does, index by index: which indexes it polls and why, and which
// indexes are counted missing or skipped when it ends.
module SweepFacts {
  import opened Basics
  import opened OfflineState

  predicate InWindow(s: RecvState, i: nat) {
    s.base <= i < s.base + s.window && i <= MAX_U64 && i !in s.consumed
  }

  predicate Due(s: RecvState, now: int, i: nat) {
    i in s.skipped && now - s.skipped[i].probeMs >= RECOVERY_PROBE_INTERVAL_MS
  }

  // Every index of the window that was not consumed is polled; one index past it
  // only after three stalled sweeps; and once a minute the lowest skipped index
  // that was not probed within the last minute.
  lemma PolledIff(s: RecvState, now: int, t: Target)
    requires s.Valid()
    ensures t in BuildTargets(s, now).1 <==> (
              match t.kind
              case Window => InWindow(s, t.index)
              case Forward => s.stalled >= 3 && t.index == Max(s.probe, Min(MAX_U64, s.base + s.window))
              case Recovery =>
                && now - s.lastProbeMs >= 60_000 && Due(s, now, t.index)
                && forall j :: Due(s, now, j) ==> t.index <= j)
  {
    var forward := ForwardStep(s).1;
    var recovery := RecoveryStep(ForwardStep(s).0, now).1;
    RecoveryIff(s, now, t);
    WindowIff(s, t);
    assert t in BuildTargets(s, now).1 <==> t in RecvWindow(s) || t in forward || t in recovery;
  }

  lemma WindowIff(s: RecvState, t: Target)
    requires s.Valid()
    ensures t in RecvWindow(s) <==> t.kind.Window? && InWindow(s, t.index)
  {
  }

  lemma RecoveryIff(s: RecvState, now: int, t: Target)
    ensures t in RecoveryStep(ForwardStep(s).0, now).1
       <==> && t.kind.Recovery? && now - s.lastProbeMs >= 60_000 && Due(s, now, t.index)
            && forall j :: Due(s, now, j) ==> t.index <= j
  {
    var due := DueForRecovery(ForwardStep(s).0, now);
    assert forall j :: j in due <==> Due(s, now, j);
    if due != {} {
      assert Due(s, now, Least(due));
    }
  }

  // The misses of an index after this sweep counted its own.
  function RoundsOf(s: RecvState, confirmed: set<nat>, k: nat): nat {
    if k in confirmed then Min(MAX_U32, (if k in s.missing then s.missing[k].rounds else 0) + 1)
    else if k in s.missing then s.missing[k].rounds
    else 0
  }

  // A gap: known to be sent, not passed, and missed three times.
  predicate IsGap(s: RecvState, confirmed: set<nat>, k: nat) {
    s.base <= k < s.known && RoundsOf(s, confirmed, k) >= 3
  }

  lemma TalliedRounds(s: RecvState, confirmed: set<nat>, now: int, k: nat)
    requires k in s.missing || k in confirmed
    ensures k in Tally(s.missing, confirmed, now)
    ensures Tally(s.missing, confirmed, now)[k] == EntryOf(s, confirmed, now, k)
  {
  }

  lemma GapsAre(s: RecvState, confirmed: set<nat>, now: int, k: nat)
    ensures k in Gaps(s.base, s.known, Tally(s.missing, confirmed, now)) <==> IsGap(s, confirmed, k)
  {
    if k in s.missing || k in confirmed {
      TalliedRounds(s, confirmed, now, k);
    }
  }

  // The indexes that are skipped when the sweep ends, before the map is bounded:
  // those skipped at most two weeks ago and the new gaps.
  function Skips(s: RecvState, confirmed: set<nat>, now: int): set<nat> {
    set k | k in s.skipped.Keys + s.missing.Keys + confirmed
            && if k in s.skipped then now - s.skipped[k].atMs <= 14 * 86_400_000 else IsGap(s, confirmed, k)
  }

  // And those counted missing: ever missed, and neither skipped nor a new gap.
  function Missed(s: RecvState, confirmed: set<nat>): set<nat> {
    set k | k in s.missing.Keys + confirmed && k !in s.skipped && !IsGap(s, confirmed, k)
  }

  // How often it was missed, and when first and last.
  function EntryOf(s: RecvState, confirmed: set<nat>, now: int, k: nat): MissEntry {
    MissEntry(RoundsOf(s, confirmed, k),
              if k in s.missing then s.missing[k].firstMs else now,
              if k in confirmed || k !in s.missing then now else s.missing[k].lastMs)
  }

  // Both maps of the sweep's end, before they are bounded.
  function Unbounded(s: RecvState, confirmed: set<nat>, now: int): (map<nat, MissEntry>, map<nat, SkipEntry>) {
    var tallied := Tally(s.missing, confirmed, now);
    var promoted := Promote(s.skipped, Gaps(s.base, s.known, tallied), now);
    (tallied - promoted.Keys, Retain(promoted, now))
  }

  lemma UnboundedKeys(s: RecvState, confirmed: set<nat>, now: int)
    ensures Unbounded(s, confirmed, now).0.Keys == Missed(s, confirmed)
    ensures Unbounded(s, confirmed, now).1.Keys == Skips(s, confirmed, now)
  {
    hide Gaps, IsGap;
    forall k
      ensures k in Gaps(s.base, s.known, Tally(s.missing, confirmed, now)) <==> IsGap(s, confirmed, k)
    {
      GapsAre(s, confirmed, now, k);
    }
    GapsWereMissed(s, confirmed);
  }

  lemma GapsWereMissed(s: RecvState, confirmed: set<nat>)
    ensures forall k :: IsGap(s, confirmed, k) ==> k in s.missing.Keys + confirmed
  {
  }

  lemma UnboundedEntries(s: RecvState, confirmed: set<nat>, now: int, k: nat)
    ensures var (missing, skipped) := Unbounded(s, confirmed, now);
            && (k in missing ==> missing[k] == EntryOf(s, confirmed, now, k))
            && (k in skipped ==> skipped[k] == if k in s.skipped then s.skipped[k] else SkipEntry(now, 0))
  {
    hide Gaps;
    if k in s.missing || k in confirmed {
      TalliedRounds(s, confirmed, now, k);
    }
  }

  lemma SettleBounds(s: RecvState, misses: set<nat>, hits: set<nat>, now: int)
    ensures var t := Settle(s, misses, hits, now);
            && t.missing == KeepSmallest(Unbounded(s, misses - hits, now).0, RECOVERY_STATE_LIMIT)
            && t.skipped == KeepSmallest(Unbounded(s, misses - hits, now).1, RECOVERY_STATE_LIMIT)
  {
    hide Tally, Gaps, Promote, Retain, KeepSmallest;
  }

  // An index is skipped after a sweep exactly if it was skipped at most two weeks
  // ago or has just become a gap, and fewer than 512 lower ones are; a new skip
  // starts its two weeks now.
  lemma SkippedIff(s: RecvState, misses: set<nat>, hits: set<nat>, now: int, k: nat)
    ensures var (t, skips) := (Settle(s, misses, hits, now), Skips(s, misses - hits, now));
            && (k in t.skipped <==> k in skips && |Below(skips, k)| < 512)
            && (k in t.skipped ==> t.skipped[k] == if k in s.skipped then s.skipped[k] else SkipEntry(now, 0))
  {
    hide Settle, Unbounded, Skips;
    SettleBounds(s, misses, hits, now);
    UnboundedKeys(s, misses - hits, now);
    UnboundedEntries(s, misses - hits, now, k);
  }

  // An index is counted missing exactly if it was ever missed, is neither skipped
  // nor a gap, and fewer than 512 lower ones are, with the times of its first and its
  // last counted miss; an index authenticated in the
  // same sweep does not count as missed.
  lemma MissingIff(s: RecvState, misses: set<nat>, hits: set<nat>, now: int, k: nat)
    ensures var (t, missed) := (Settle(s, misses, hits, now), Missed(s, misses - hits));
            && (k in t.missing <==> k in missed && |Below(missed, k)| < 512)
            && (k in t.missing ==> t.missing[k] == EntryOf(s, misses - hits, now, k))
  {
    hide Settle, Unbounded, Missed;
    SettleBounds(s, misses, hits, now);
    UnboundedKeys(s, misses - hits, now);
    UnboundedEntries(s, misses - hits, now, k);
  }

  // Bounding drops an index only behind 512 that stay: a skip that is forgotten, so
  // that the index is waited for again, lies above every skip that is kept.
  lemma ForgottenBehindMany(s: RecvState, misses: set<nat>, hits: set<nat>, now: int, k: nat)
    requires k in Skips(s, misses - hits, now) && k !in Settle(s, misses, hits, now).skipped
    ensures var t := Settle(s, misses, hits, now);
            |t.skipped| == 512 && forall j :: j in t.skipped ==> j < k
  {
    hide Settle, Unbounded, Skips, KeepSmallest;
    SettleBounds(s, misses, hits, now);
    UnboundedKeys(s, misses - hits, now);
    DroppedBehindMany(Unbounded(s, misses - hits, now).1, RECOVERY_STATE_LIMIT, k);
  }
}
