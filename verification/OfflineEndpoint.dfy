// The offline half of one Termchat client as the source has it: an object whose
// methods update its index fields in place, in loops. Each method is proved
// against the function of OfflineState that says what the step does.
module OfflineEndpoint {
  import opened Basics
  import opened OfflineState
  import opened OfflineText
  import opened Text

  class Endpoint {
    var secret: seq<Byte>
    var sendIndex: nat
    var base: nat
    var window: nat
    var consumed: set<nat>
    var known: nat
    var highest: Option<nat>
    var missing: map<nat, MissEntry>
    var skipped: map<nat, SkipEntry>
    var forwardProbe: nat
    var stalledSweeps: nat
    var lastProbeMs: int

    ghost function View(): RecvState
      reads this
    {
      RecvState(base, window, consumed, known, highest, missing, skipped, forwardProbe, stalledSweeps, lastProbeMs)
    }

    ghost function Holds(): Profile
      reads this
    {
      Profile(secret, sendIndex, View())
    }

    constructor (secret: seq<Byte>)
      ensures Holds() == Profile(secret, 0, Fresh(8))
    {
      this.secret := secret;
      sendIndex, base, window, consumed, known, highest := 0, 0, 8, {}, 0, None;
      missing, skipped, forwardProbe, stalledSweeps, lastProbeMs := map[], map[], 0, 0, 0;
    }

    // The part of send_offline_message after the PUT was awaited.
    method FinishPut(replies: seq<PutReply>) returns (delivered: bool)
      modifies this`sendIndex
      ensures delivered <==> exists r :: r in replies && r != Failed
      ensures sendIndex == old(sendIndex) + (if delivered then 1 else 0)
    {
      var status := PutStatus(set r | r in replies);
      delivered := status == Stored || status == AlreadyThere;
      if delivered {
        sendIndex := sendIndex + 1;
      }
    }

    // A verified index-sync frame: both indexes only ever move forward.
    method ReceiveIndexSync(remoteNextSend: nat, remoteRecvBase: nat)
      modifies this`sendIndex, this`known
      ensures View() == old(View()).(known := Max(old(known), remoteNextSend))
      ensures sendIndex == Max(old(sendIndex), remoteRecvBase)
    {
      sendIndex := Max(sendIndex, remoteRecvBase);
      known := Max(known, remoteNextSend);
    }

    method GetRecvWindow() returns (targets: seq<Target>)
      requires View().Valid()
      ensures targets == RecvWindow(View())
    {
      targets := [];
      var end := Min(MAX_U64 + 1, base + window);
      var i := base;
      ghost var all := WindowFrom(base, end, consumed);
      while i < end
        invariant base <= i <= end
        invariant all == targets + WindowFrom(i, end, consumed)
      {
        ghost var rest := WindowFrom(i + 1, end, consumed);
        if i !in consumed {
          assert targets + ([Target(i, Window)] + rest) == (targets + [Target(i, Window)]) + rest;
          targets := targets + [Target(i, Window)];
        }
        i := i + 1;
      }
    }

    method AdvanceBase()
      requires base <= MAX_U64
      modifies this`base, this`consumed, this`skipped
      ensures View() == Advance(old(View()))
    {
      ghost var s := View();
      while base in consumed || base in skipped
        invariant s.base <= base <= MAX_U64
        invariant consumed == s.consumed && skipped == s.skipped
        invariant NextFree(s.base, s.Held()) == NextFree(base, s.Held())
        decreases MAX_U64 - base
      {
        if base == MAX_U64 {
          consumed := consumed - {base};
          skipped := skipped - {base};
          break;
        }
        base := base + 1;
      }
      consumed := set index | index in consumed && index >= base;
    }

    method BoundRecoveryState()
      modifies this`missing, this`skipped
      ensures View() == Bound(old(View()))
    {
      missing := TakeSmallest(missing, RECOVERY_STATE_LIMIT);
      skipped := TakeSmallest(skipped, RECOVERY_STATE_LIMIT);
    }

    method BuildPollTargets(now: int) returns (targets: seq<Target>)
      requires View().Valid()
      modifies this`forwardProbe, this`skipped, this`lastProbeMs
      ensures View() == BuildTargets(old(View()), now).0
      ensures targets == BuildTargets(old(View()), now).1
    {
      targets := GetRecvWindow();
      if stalledSweeps >= FORWARD_PROBE_STALL_ROUNDS {
        var windowEnd := Min(MAX_U64, base + window);
        var probeIndex := Max(forwardProbe, windowEnd);
        if probeIndex <= MAX_U64 {
          targets := targets + [Target(probeIndex, Forward)];
          forwardProbe := Min(MAX_U64, probeIndex + 1);
        }
      }
      assert View() == ForwardStep(old(View())).0;
      assert targets == RecvWindow(old(View())) + ForwardStep(old(View())).1;
      var recovery := RecoveryTargets(now);
      targets := targets + recovery;
    }

    // The late-recovery part: the lowest skipped index that is due again.
    method RecoveryTargets(now: int) returns (targets: seq<Target>)
      modifies this`skipped, this`lastProbeMs
      ensures View() == RecoveryStep(old(View()), now).0
      ensures targets == RecoveryStep(old(View()), now).1
    {
      hide Least, Sorted;
      targets := [];
      if now - lastProbeMs >= RECOVERY_PROBE_INTERVAL_MS {
        ghost var due := DueForRecovery(View(), now);
        var indexes := Sorted(skipped.Keys);
        var i := 0;
        while i < |indexes|
          invariant i <= |indexes|
          invariant forall j :: 0 <= j < i ==> indexes[j] !in due
          invariant View() == old(View())
        {
          var index := indexes[i];
          if now - skipped[index].probeMs >= RECOVERY_PROBE_INTERVAL_MS {
            FirstInListing(indexes, due, i);
            skipped := skipped[index := skipped[index].(probeMs := now)];
            lastProbeMs := now;
            targets := [Target(index, Recovery)];
            return;
          }
          i := i + 1;
        }
        NoneInListing(indexes, due);
      }
    }

    method RecordAuthenticated(r: nat)
      requires base <= MAX_U64
      modifies this`base, this`consumed, this`known, this`highest, this`missing, this`skipped
      ensures View() == Record(old(View()), r)
    {
      known := Max(known, Min(MAX_U64, r + 1));
      if highest.None? {
        highest := Some(r);
      } else {
        highest := Some(Max(highest.value, r));
      }
      missing := missing - {r};
      skipped := skipped - {r};
      if r >= base {
        consumed := consumed + {r};
      }
      AdvanceBase();
    }

    method TallyMisses(confirmed: set<nat>, now: int)
      modifies this`missing
      ensures missing == Tally(old(missing), confirmed, now)
    {
      hide Tally, Sorted, Ascending;
      var indexes := Sorted(confirmed);
      var i := 0;
      ghost var before := missing;
      TallyNone(missing, now);
      ghost var done: set<nat> := {};
      while i < |indexes|
        invariant i <= |indexes|
        invariant forall j :: 0 <= j < |indexes| ==> (indexes[j] in done <==> j < i)
        invariant done <= confirmed
        invariant missing == Tally(before, done, now)
      {
        var index := indexes[i];
        OnceListed(indexes, i);
        TallyStep(before, done, index, now);
        if index !in missing {
          missing := missing[index := MissEntry(1, now, now)];
        } else {
          missing := missing[index := MissEntry(Min(MAX_U32, missing[index].rounds + 1), missing[index].firstMs, now)];
        }
        done := done + {index};
        i := i + 1;
      }
      assert done == confirmed by { CoversListing(indexes, confirmed, done); }
    }

    method PromoteGaps(now: int)
      modifies this`skipped
      ensures skipped == Promote(old(skipped), Gaps(base, known, missing), now)
    {
      hide Gaps, GapConfirmed, Promote;
      ghost var gaps := Gaps(base, known, missing);
      ghost var done: set<nat> := {};
      GapsIff(base, known, missing);
      PromoteNone(skipped, now);
      var todo := missing.Keys;
      while todo != {}
        invariant todo <= missing.Keys && done == gaps - todo
        invariant skipped == Promote(old(skipped), done, now)
        decreases |todo|
      {
        var index :| index in todo;
        todo := todo - {index};
        PromoteOne(old(skipped), done, index, now);
        done := if index in gaps then done + {index} else done;
        if missing[index].rounds >= GAP_MISS_ROUNDS && base <= index < known {
          if index !in skipped {
            skipped := skipped[index := SkipEntry(now, 0)];
          }
        }
      }
      assert done == gaps;
    }

    method ForgetSkippedMisses()
      modifies this`missing
      ensures missing == old(missing) - skipped.Keys
    {
      var todo := skipped.Keys;
      while todo != {}
        invariant todo <= skipped.Keys
        invariant missing == old(missing) - (skipped.Keys - todo)
        decreases |todo|
      {
        var index :| index in todo;
        todo := todo - {index};
        missing := missing - {index};
      }
    }

    method FinalizeSweep(confirmedMisses: set<nat>, authenticated: set<nat>, now: int)
      requires base <= MAX_U64
      modifies this`base, this`consumed, this`missing, this`skipped, this`stalledSweeps, this`forwardProbe
      ensures View() == Finalize(old(View()), confirmedMisses, authenticated, now)
    {
      hide Tally, Gaps, Promote, KeepSmallest, Advance;
      TallyMisses(confirmedMisses - authenticated, now);
      PromoteGaps(now);
      ForgetSkippedMisses();
      skipped := map index | index in skipped && now - skipped[index].atMs <= SKIPPED_RETENTION_MS :: skipped[index];
      BoundRecoveryState();
      assert View() == Settle(old(View()), confirmedMisses, authenticated, now);
      var previousBase := base;
      AdvanceBase();
      if previousBase != base || authenticated != {} {
        stalledSweeps := 0;
        forwardProbe := Min(MAX_U64, base + window);
      } else {
        stalledSweeps := Min(MAX_U32, stalledSweeps + 1);
      }
    }

    // The part of poll_deaddrops that judges one index by what the drops returned:
    // a single authentic blob is a hit, and a miss needs a drop that says so and
    // none that returned a blob.
    static method JudgeReplies(replies: seq<DropReply>) returns (r: Reply)
      ensures r == Hit <==> Blob(true) in replies
      ensures r == ConfirmedMiss <==> Miss in replies && !HasBlob(replies)
      ensures r == Classify(replies)
    {
      var anyBlob, valid, missed := false, false, false;
      for i := 0 to |replies|
        invariant anyBlob <==> HasBlob(replies[..i])
        invariant valid <==> Blob(true) in replies[..i]
        invariant missed <==> Miss in replies[..i]
      {
        assert replies[..i + 1] == replies[..i] + [replies[i]];
        OneMoreReply(replies[..i], replies[i]);
        match replies[i] {
          case Blob(authentic) =>
            anyBlob := true;
            valid := valid || authentic;
          case Miss => missed := true;
          case NoAnswer =>
        }
      }
      assert replies[..|replies|] == replies;
      if anyBlob {
        return if valid then Hit else Indeterminate;
      }
      return if missed then ConfirmedMiss else Indeterminate;
    }

    // One pass of poll_deaddrops; the replies stand for the awaited GETs.
    method PollOnce(now: int, replies: seq<Reply>)
      requires View().Valid()
      requires Answers(View(), now, replies)
      modifies this
      ensures View() == Sweep(old(View()), now, replies)
      ensures sendIndex == old(sendIndex) && secret == old(secret)
    {
      var targets := BuildPollTargets(now);
      var misses: set<nat>, hits: set<nat> := {}, {};
      var i := 0;
      ghost var final := AnswerAll(Progress(View(), {}, {}), targets, replies);
      while i < |targets|
        invariant i <= |targets|
        invariant base <= MAX_U64
        invariant sendIndex == old(sendIndex) && secret == old(secret)
        invariant AnswerAll(Progress(View(), misses, hits), targets[i..], replies[i..]) == final
      {
        match replies[i] {
          case Hit =>
            hits := hits + {targets[i].index};
            RecordAuthenticated(targets[i].index);
          case ConfirmedMiss =>
            if targets[i].kind != Recovery {
              misses := misses + {targets[i].index};
            }
          case Indeterminate =>
        }
        i := i + 1;
      }
      FinalizeSweep(misses, hits, now);
    }

    // load_offline_state: indexes only move up, the maps are replaced and bounded.
    method LoadState(text: string)
      modifies this
      ensures Holds() == Load(old(Holds()), Parse(text))
    {
      hide Parse, ParseMap, Name, LoadSecret, LoadWindow, LoadHighest, ParseU64Or, KeepSmallest;
      var data := ReadFields(text);
      LoadIndexes(data);
      LoadLists(data);
      BoundRecoveryState();
    }

    method LoadIndexes(data: map<string, string>)
      modifies this`secret, this`sendIndex, this`base, this`window, this`known, this`highest, this`forwardProbe
      ensures secret == LoadSecret(data, old(secret))
      ensures sendIndex == Max(old(sendIndex), ParseU64Or(Get(data, Name(SendIndex)), 0))
      ensures base == Max(old(base), ParseU64Or(Get(data, Name(RecvBase)), 0))
      ensures window == LoadWindow(data, old(window))
      ensures known == Max(Max(old(known), ParseU64Or(Get(data, Name(KnownNext)), 0)), base)
      ensures highest == LoadHighest(data, old(highest))
      ensures forwardProbe == Max(old(forwardProbe), ParseU64Or(Get(data, Name(Probe)), 0))
    {
      hide Name, LoadSecret, LoadWindow, LoadHighest, ParseU64Or;
      secret := LoadSecret(data, secret);
      sendIndex := Max(sendIndex, ParseU64Or(Get(data, Name(SendIndex)), 0));
      base := Max(base, ParseU64Or(Get(data, Name(RecvBase)), 0));
      window := LoadWindow(data, window);
      known := Max(Max(known, ParseU64Or(Get(data, Name(KnownNext)), 0)), base);
      highest := LoadHighest(data, highest);
      forwardProbe := Max(forwardProbe, ParseU64Or(Get(data, Name(Probe)), 0));
    }

    method LoadLists(data: map<string, string>)
      modifies this`consumed, this`missing, this`skipped
      ensures consumed == ParseMap(Get(data, Name(Consumed)), ParseIndex).Keys
      ensures missing == ParseMap(Get(data, Name(Missing)), ParseMiss)
      ensures skipped == ParseMap(Get(data, Name(Skipped)), ParseSkip)
    {
      hide ParseMap, Name;
      var indexes := ReadMap(Get(data, Name(Consumed)), ParseIndex);
      consumed := indexes.Keys;
      missing := ReadMap(Get(data, Name(Missing)), ParseMiss);
      skipped := ReadMap(Get(data, Name(Skipped)), ParseSkip);
    }
  }

  lemma OneMoreReply(replies: seq<DropReply>, r: DropReply)
    ensures HasBlob(replies + [r]) <==> HasBlob(replies) || r.Blob?
  {
    if HasBlob(replies) {
      var x :| x in replies && x.Blob?;
      assert x in replies + [r];
    }
    assert r in replies + [r];
  }

  lemma TallyNone(m: map<nat, MissEntry>, now: int)
    ensures Tally(m, {}, now) == m
  {
  }

  lemma GapsIff(base: nat, known: nat, missing: map<nat, MissEntry>)
    ensures Gaps(base, known, missing) <= missing.Keys
    ensures forall k :: k in missing ==>
              (k in Gaps(base, known, missing) <==> missing[k].rounds >= GAP_MISS_ROUNDS && base <= k < known)
  {
  }

  lemma PromoteNone(skipped: map<nat, SkipEntry>, now: int)
    ensures Promote(skipped, {}, now) == skipped
  {
  }

  lemma PromoteOne(skipped: map<nat, SkipEntry>, done: set<nat>, k: nat, now: int)
    ensures var promoted := Promote(skipped, done, now);
            Promote(skipped, done + {k}, now) == if k in promoted then promoted else promoted[k := SkipEntry(now, 0)]
  {
  }

  lemma OnceListed(r: seq<nat>, i: nat)
    requires Ascending(r) && i < |r|
    ensures forall j :: 0 <= j < |r| && j != i ==> r[j] != r[i]
  {
  }

  lemma TallyStep(m: map<nat, MissEntry>, done: set<nat>, k: nat, now: int)
    requires k !in done
    ensures Tally(m, done + {k}, now) == Tally(m, done, now)[k := Bump(m, k, now)]
    ensures k in Tally(m, done, now) <==> k in m
    ensures k in m ==> Tally(m, done, now)[k] == m[k]
  {
  }

  // dict(sorted(m.items())[:n])
  method TakeSmallest<V>(m: map<nat, V>, n: nat) returns (r: map<nat, V>)
    ensures r == KeepSmallest(m, n)
  {
    hide Sorted, KeepSmallest;
    var indexes := Sorted(m.Keys);
    r := map[];
    var i := 0;
    while i < |indexes| && i < n
      invariant i <= |indexes| && i <= n
      invariant forall k :: k in r ==> k in m && r[k] == m[k]
      invariant forall j :: 0 <= j < |indexes| ==> (indexes[j] in r <==> j < i)
    {
      r := r[indexes[i] := m[indexes[i]]];
      i := i + 1;
    }
    SmallestOfListing(indexes, m, n, r);
  }

  lemma FirstInListing(r: seq<nat>, due: set<nat>, i: nat)
    requires Ascending(r)
    requires forall x :: x in due ==> x in r
    requires i < |r| && r[i] in due
    requires forall j :: 0 <= j < i ==> r[j] !in due
    ensures Least(due) == r[i]
  {
    var j :| 0 <= j < |r| && r[j] == Least(due);
  }

  lemma NoneInListing(r: seq<nat>, due: set<nat>)
    requires forall x :: x in due ==> x in r
    ensures due == {} || exists j :: 0 <= j < |r| && r[j] in due
  {
    if due != {} {
      var x :| x in due;
      assert x in r;
    }
  }

  lemma CoversListing(r: seq<nat>, keys: set<nat>, done: set<nat>)
    requires forall x :: x in r <==> x in keys
    requires done <= keys
    requires forall j :: 0 <= j < |r| ==> r[j] in done
    ensures done == keys
  {
    forall k | k in keys
      ensures k in done
    {
      assert k in r;
    }
  }

  lemma SmallestOfListing<V>(indexes: seq<nat>, m: map<nat, V>, n: nat, r: map<nat, V>)
    requires Ascending(indexes)
    requires forall x :: x in indexes <==> x in m.Keys
    requires forall k :: k in r ==> k in m && r[k] == m[k]
    requires forall j :: 0 <= j < |indexes| ==> (indexes[j] in r <==> j < n)
    ensures r == KeepSmallest(m, n)
  {
    forall k | k in m
      ensures k in r <==> |Below(m.Keys, k)| < n
    {
      assert k in indexes;
      var j :| 0 <= j < |indexes| && indexes[j] == k;
      RankInListing(indexes, m.Keys, j);
    }
  }
}
