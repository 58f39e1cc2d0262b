// A member's side of a group: whatever rosters arrive, in whatever order and
// however often, the record ends at the highest genuine version among them.
module RosterMerge {
  import opened Basics
  import opened Text
  import opened MemberOrder
  import opened Roster
  import opened RosterOwner

  // A refused roster leaves the record alone.
  function Receive(g: Group, r: RosterSync): Group {
    match MergeSync(g, r)
    case Ok(g') => g'
    case Err(_) => g
  }

  function ReceiveAll(g: Group, rs: seq<RosterSync>): Group {
    if rs == [] then g else Receive(ReceiveAll(g, rs[..|rs| - 1]), rs[|rs| - 1])
  }

  // What a record takes into account at all: with an owner or a key pinned, only
  // rosters of that owner and under that key.
  predicate Counts(g: Group, r: RosterSync) {
    Genuine(r) && Pinned(g, r)
  }

  // Every roster that counts comes from one owner and key. A record that pinned
  // both needs no such hypothesis.
  ghost predicate OneOwner(g: Group, rs: seq<RosterSync>, owner: string, key: nat) {
    && (g.owner == "" || Lower(g.owner) == owner)
    && (g.pubkey == None || g.pubkey == Some(key))
    && Lower(owner) == owner && owner != ""
    && forall r :: r in rs && Counts(g, r) ==> Lower(r.owner) == owner && r.pubkey == Some(key)
  }

  predicate FullyPinned(g: Group) {
    g.owner != "" && g.pubkey.Some?
  }

  lemma PinnedHasOneOwner(g: Group, rs: seq<RosterSync>)
    requires FullyPinned(g)
    ensures OneOwner(g, rs, Lower(g.owner), g.pubkey.value)
  {
    hide Genuine;
    LowerIdempotent(g.owner);
    assert |Lower(g.owner)| == |g.owner|;
  }

  predicate SameContent(r: RosterSync, q: RosterSync) {
    r.groupName == q.groupName && NormalizeValid(r.members) == NormalizeValid(q.members) && r.signature == q.signature
  }

  ghost predicate OneRosterPerVersion(g: Group, rs: seq<RosterSync>) {
    forall r, q :: r in rs && q in rs && Counts(g, r) && Counts(g, q) && OrOne(r.version) == OrOne(q.version) ==>
      SameContent(r, q)
  }

  // Everything but the join token, which any roster without oneself clears, newest or
  // not: JoinTokenKeptIff says when.
  function Shared(g: Group): Group {
    g.(joinToken := None)
  }

  ghost predicate Adopted(g: Group, rs: seq<RosterSync>, n: Group) {
    exists r :: r in rs && Counts(g, r) && OrOne(r.version) > OrOne(g.version) && Took(g, r, n)
  }

  // The record as this roster left it, whatever had become of the join token before.
  predicate Took(g: Group, r: RosterSync, n: Group) {
    Shared(n) == Shared(Adopt(g, r)) && (SelfRemoved(g, r) ==> n.joinToken.None?)
  }

  ghost predicate EndsAtHighest(g: Group, rs: seq<RosterSync>, n: Group) {
    && (forall r :: r in rs && Counts(g, r) ==> OrOne(r.version) <= OrOne(n.version))
    && (n == g || Adopted(g, rs, n))
  }

  lemma AdoptForgets(g: Group, n: Group, r: RosterSync, q: RosterSync)
    requires Shared(n) == Shared(Adopt(g, q))
    ensures Shared(Adopt(n, r)) == Shared(Adopt(g, r))
  {
    assert n.my == Shared(n).my && n.invites == Shared(n).invites && n.secret == Shared(n).secret
        && n.myName == Shared(n).myName;
  }

  lemma ReceiveOther(n: Group, r: RosterSync)
    requires !Counts(n, r)
    ensures Receive(n, r) == n
  {
  }

  lemma ReceiveCounted(n: Group, r: RosterSync)
    requires Counts(n, r)
    ensures Receive(n, r) == if OrOne(r.version) > OrOne(n.version) then Adopt(n, r) else n
  {
  }

  // Adopting a roster pins its owner and key.
  lemma AdoptPins(g: Group, q: RosterSync, n: Group)
    requires Genuine(q) && Shared(n) == Shared(Adopt(g, q))
    ensures n.owner == Lower(q.owner) && n.owner != "" && Lower(n.owner) == n.owner && n.pubkey == q.pubkey && n.pubkey.Some?
  {
    hide MergeMembers, SelfRemoved, NormalizeValid;
    assert Shared(n).owner == n.owner && Shared(n).pubkey == n.pubkey;
    LowerIdempotent(q.owner);
    EmptyIsNoAddress(n.owner);
  }

  lemma EmptyIsNoAddress(owner: string)
    requires ValidAddress(owner)
    ensures owner != ""
  {
  }

  // Along the way a record goes on counting exactly the same rosters.
  lemma SameCounts(g: Group, rs: seq<RosterSync>, n: Group, r: RosterSync, owner: string, key: nat)
    requires OneOwner(g, rs + [r], owner, key) && EndsAtHighest(g, rs, n)
    ensures Counts(n, r) == Counts(g, r)
  {
    hide Genuine, Adopt;
    assert r in rs + [r];
    if n != g {
      var q :| q in rs && Counts(g, q) && OrOne(q.version) > OrOne(g.version) && Took(g, q, n);
      assert q in rs + [r];
      AdoptPins(g, q, n);
    }
  }

  lemma AdoptNewer(g: Group, rs: seq<RosterSync>, n: Group, r: RosterSync)
    requires EndsAtHighest(g, rs, n) && Counts(g, r) && OrOne(r.version) > OrOne(n.version)
    ensures EndsAtHighest(g, rs + [r], Adopt(n, r))
  {
    hide Counts, MergeMembers, SelfRemoved;
    assert r in rs + [r];
    SameSelf(n, g, r);
    if n != g {
      var q :| q in rs && Counts(g, q) && OrOne(q.version) > OrOne(g.version) && Took(g, q, n);
      assert Shared(n).version == n.version && Shared(n).my == n.my;
      AdoptForgets(g, n, r, q);
    }
  }

  lemma KeepOlder(g: Group, rs: seq<RosterSync>, n: Group, r: RosterSync)
    requires EndsAtHighest(g, rs, n) && (Counts(g, r) ==> OrOne(r.version) <= OrOne(n.version))
    ensures EndsAtHighest(g, rs + [r], n)
  {
    hide Counts, Adopt;
    if n != g {
      var q :| q in rs && Counts(g, q) && OrOne(q.version) > OrOne(g.version) && Took(g, q, n);
      assert q in rs + [r];
    }
  }

  lemma SameSelf(n: Group, g: Group, r: RosterSync)
    ensures n.my == g.my ==> SelfRemoved(n, r) == SelfRemoved(g, r)
  {
  }

  lemma ReceiveStep(g: Group, rs: seq<RosterSync>, r: RosterSync, n: Group, owner: string, key: nat)
    requires OneOwner(g, rs + [r], owner, key)
    requires EndsAtHighest(g, rs, n)
    ensures EndsAtHighest(g, rs + [r], Receive(n, r))
  {
    hide Counts, Adopt, Receive, EndsAtHighest, OneOwner;
    SameCounts(g, rs, n, r, owner, key);
    if Counts(n, r) {
      ReceiveCounted(n, r);
      if OrOne(r.version) > OrOne(n.version) {
        AdoptNewer(g, rs, n, r);
      } else {
        KeepOlder(g, rs, n, r);
      }
    } else {
      ReceiveOther(n, r);
      KeepOlder(g, rs, n, r);
    }
  }

  lemma NothingReceived(g: Group)
    ensures EndsAtHighest(g, [], g)
  {
  }

  lemma {:induction false} ReceiveAllEndsAtHighest(g: Group, rs: seq<RosterSync>, owner: string, key: nat)
    requires OneOwner(g, rs, owner, key)
    ensures EndsAtHighest(g, rs, ReceiveAll(g, rs))
  {
    if rs == [] {
      NothingReceived(g);
    } else {
      hide EndsAtHighest, Counts, Receive;
      var front, last := rs[..|rs| - 1], rs[|rs| - 1];
      assert rs == front + [last];
      ReceiveAllEndsAtHighest(g, front, owner, key);
      ReceiveStep(g, front, last, ReceiveAll(g, front), owner, key);
    }
  }

  // A record that pinned owner and key ends at the highest roster that counts,
  // whatever else reaches it, rosters validly signed with another key included.
  lemma PinnedEndsAtHighest(g: Group, rs: seq<RosterSync>)
    requires FullyPinned(g)
    ensures EndsAtHighest(g, rs, ReceiveAll(g, rs))
  {
    PinnedHasOneOwner(g, rs);
    ReceiveAllEndsAtHighest(g, rs, Lower(g.owner), g.pubkey.value);
  }

  lemma AdoptSame(g: Group, r: RosterSync, q: RosterSync)
    requires SameContent(r, q) && OrOne(r.version) == OrOne(q.version)
    requires Lower(r.owner) == Lower(q.owner) && r.pubkey == q.pubkey
    ensures Adopt(g, r) == Adopt(g, q)
  {
    hide MergeMembers, NormalizeValid, HasAddress;
  }

  lemma SameHighest(g: Group, rs: seq<RosterSync>, qs: seq<RosterSync>, n: Group, m: Group, owner: string, key: nat)
    requires OneOwner(g, rs, owner, key) && OneRosterPerVersion(g, rs)
    requires forall r :: Counts(g, r) ==> (r in rs <==> r in qs)
    requires EndsAtHighest(g, rs, n) && EndsAtHighest(g, qs, m)
    ensures Shared(n) == Shared(m)
  {
    hide Counts, MergeMembers, NormalizeValid, SelfRemoved, SameContent;
    if n != g && m != g {
      var r :| r in rs && Counts(g, r) && OrOne(r.version) > OrOne(g.version) && Took(g, r, n);
      var q :| q in qs && Counts(g, q) && OrOne(q.version) > OrOne(g.version) && Took(g, q, m);
      assert Shared(n).version == n.version && Shared(m).version == m.version;
      AdoptSame(g, r, q);
    }
  }

  // Two members that received the same rosters, in any order and with any
  // repetitions, hold the same group.
  lemma RostersConverge(g: Group, rs: seq<RosterSync>, qs: seq<RosterSync>, owner: string, key: nat)
    requires OneOwner(g, rs, owner, key) && OneRosterPerVersion(g, rs)
    requires forall r :: r in rs <==> r in qs
    ensures Shared(ReceiveAll(g, rs)) == Shared(ReceiveAll(g, qs))
  {
    hide Counts, ReceiveAll, EndsAtHighest, OneRosterPerVersion;
    ReceiveAllEndsAtHighest(g, rs, owner, key);
    ReceiveAllEndsAtHighest(g, qs, owner, key);
    SameHighest(g, rs, qs, ReceiveAll(g, rs), ReceiveAll(g, qs), owner, key);
  }

  // Pinned records need no hypothesis about owners and keys, and only what counts
  // has to be the same: the rest may differ from one member to the other.
  lemma PinnedConverge(g: Group, rs: seq<RosterSync>, qs: seq<RosterSync>)
    requires FullyPinned(g) && OneRosterPerVersion(g, rs)
    requires forall r :: Counts(g, r) ==> (r in rs <==> r in qs)
    ensures Shared(ReceiveAll(g, rs)) == Shared(ReceiveAll(g, qs))
  {
    hide Counts, ReceiveAll, EndsAtHighest, OneRosterPerVersion, OneOwner;
    PinnedEndsAtHighest(g, rs);
    PinnedEndsAtHighest(g, qs);
    PinnedHasOneOwner(g, rs);
    SameHighest(g, rs, qs, ReceiveAll(g, rs), ReceiveAll(g, qs), Lower(g.owner), g.pubkey.value);
  }

  // ------------------------------------------------------------ the join token

  // The i-th roster was newer than everything before it that counted, and counted.
  predicate TookOver(g: Group, rs: seq<RosterSync>, i: nat)
    requires i < |rs|
  {
    var n := ReceiveAll(g, rs[..i]);
    Counts(n, rs[i]) && OrOne(rs[i].version) > OrOne(n.version)
  }

  // Neither the roster's owner nor one of its usable members.
  predicate LeavesOut(r: RosterSync, my: string) {
    && my != "" && Lower(my) != Lower(r.owner)
    && forall m :: m in r.members ==> !(ValidAddress(m.b32) && Lower(Trim(m.b32)) == Lower(my))
  }

  predicate TookOverWithoutSelf(g: Group, rs: seq<RosterSync>) {
    exists i :: 0 <= i < |rs| && TookOver(g, rs, i) && LeavesOut(rs[i], g.my)
  }

  lemma {:induction false} HasValid(list: seq<Member>, addr: string)
    ensures HasAddress(NormalizeValid(list), addr)
       <==> exists m :: m in list && ValidAddress(m.b32) && Lower(Trim(m.b32)) == addr
  {
    hide Normalize, ValidAddress, Lower, Trim;
    if list != [] {
      HasValid(list[1..], addr);
      NormalizedAgain(list[0]);
      assert forall m :: m in list <==> m == list[0] || m in list[1..];
      var rest := NormalizeValid(list[1..]);
      if ValidAddress(list[0].b32) {
        assert forall m :: m in NormalizeValid(list) <==> m == Normalize(list[0]) || m in rest;
      }
    }
  }

  lemma NormalizedAgain(m: Member)
    ensures Lower(Normalize(m).b32) == Lower(Trim(m.b32))
  {
    hide Lower, Trim, Take, ShortB32;
    LowerIdempotent(Trim(m.b32));
  }

  lemma LeavesOutIff(g: Group, r: RosterSync)
    ensures SelfRemoved(g, r) <==> LeavesOut(r, g.my)
  {
    hide Normalize, ValidAddress, Lower, HasAddress, NormalizeValid;
    HasValid(r.members, Lower(g.my));
  }

  lemma ReceiveToken(n: Group, r: RosterSync)
    ensures Receive(n, r).my == n.my
    ensures Receive(n, r).joinToken
         == if Counts(n, r) && OrOne(r.version) > OrOne(n.version) && LeavesOut(r, n.my) then None else n.joinToken
  {
    hide Receive, Counts, LeavesOut, SelfRemoved, MergeMembers;
    LeavesOutIff(n, r);
    if Counts(n, r) {
      ReceiveCounted(n, r);
    } else {
      ReceiveOther(n, r);
    }
  }

  // A record keeps its join token exactly if no roster it took over left it out; the
  // token is gone for good with the first that did, even if a newer one lists it again.
  lemma {:induction false} JoinTokenKeptIff(g: Group, rs: seq<RosterSync>)
    ensures ReceiveAll(g, rs).my == g.my
    ensures ReceiveAll(g, rs).joinToken == if TookOverWithoutSelf(g, rs) then None else g.joinToken
  {
    if rs != [] {
      hide Receive, Counts, LeavesOut, TookOverWithoutSelf, TookOver;
      var front, last := rs[..|rs| - 1], rs[|rs| - 1];
      JoinTokenKeptIff(g, front);
      ReceiveToken(ReceiveAll(g, front), last);
      TookOverMore(g, rs);
      TookOverLast(g, rs);
    }
  }

  lemma TookOverLast(g: Group, rs: seq<RosterSync>)
    requires rs != []
    ensures var n := ReceiveAll(g, rs[..|rs| - 1]);
            TookOver(g, rs, |rs| - 1) == (Counts(n, rs[|rs| - 1]) && OrOne(rs[|rs| - 1].version) > OrOne(n.version))
  {
    hide ReceiveAll, Counts;
  }

  lemma TookOverMore(g: Group, rs: seq<RosterSync>)
    requires rs != []
    ensures TookOverWithoutSelf(g, rs)
       <==> || TookOverWithoutSelf(g, rs[..|rs| - 1])
            || (TookOver(g, rs, |rs| - 1) && LeavesOut(rs[|rs| - 1], g.my))
  {
    hide TookOver, LeavesOut;
    var front := rs[..|rs| - 1];
    forall i | 0 <= i < |front|
      ensures TookOver(g, rs, i) == TookOver(g, front, i) && rs[i] == front[i]
    {
      TookOverEarlier(g, rs, i);
    }
  }

  lemma TookOverEarlier(g: Group, rs: seq<RosterSync>, i: nat)
    requires i < |rs| - 1
    ensures TookOver(g, rs, i) == TookOver(g, rs[..|rs| - 1], i)
  {
    hide ReceiveAll, Counts;
    assert rs[..|rs| - 1][..i] == rs[..i];
  }

  // -------------------------------------------------- against an owner's run

  lemma MergeInOrder(my: string, acc: seq<Member>, m: Member)
    requires IsB32(my) && CleanMember(m) && Ordered(acc + [m])
    ensures MergeMember(my, acc, m) == if m.b32 == my then acc else acc + [m]
  {
    hide Sort;
    AddressIsPlain(my);
    NormalizeClean(m);
    OrderedIsDistinct(acc + [m]);
    forall x | x in acc
      ensures Lower(x.b32) != Lower(m.b32)
    {
      var j :| 0 <= j < |acc| && acc[j] == x;
      assert (acc + [m])[j] == x && (acc + [m])[|acc|] == m;
    }
    PositionOfNew(acc, m);
    SortOfOrdered(acc + [m]);
  }

  lemma OrderedParts(acc: seq<Member>, list: seq<Member>)
    requires list != [] && Ordered(acc + list)
    ensures Ordered(acc + [list[0]]) && Ordered(acc + [list[0]] + list[1..]) && Ordered(acc + list[1..])
  {
    var all, less := acc + list, acc + list[1..];
    assert acc + [list[0]] == all[..|acc| + 1];
    assert acc + [list[0]] + list[1..] == all;
    assert forall i :: 0 <= i < |less| ==> less[i] == all[if i < |acc| then i else i + 1];
  }

  // Merging an ordered list keeps its order and leaves out oneself.
  lemma {:induction false} WithoutSelf(my: string, list: seq<Member>, acc: seq<Member>)
    requires AllClean(list) && Ordered(acc + list) && IsB32(my)
    ensures MergeMembers(my, acc, list) == acc + Without(list, my)
    decreases |list|
  {
    hide MergeMember, Ordered, IsB32, CleanName, ValidAddress, Trim, Lower;
    if list == [] {
      assert acc + [] == acc;
    } else {
      assert list[0] in list;
      AddressIsPlain(list[0].b32);
      OrderedParts(acc, list);
      MergeInOrder(my, acc, list[0]);
      if list[0].b32 == my {
        WithoutSelf(my, list[1..], acc);
      } else {
        WithoutSelf(my, list[1..], acc + [list[0]]);
        assert acc + [list[0]] + Without(list[1..], my) == acc + ([list[0]] + Without(list[1..], my));
      }
    }
  }

  // A run in which the owner's own display name stays as it was.
  ghost predicate SteadyName(o: Owner, ops: seq<Op>) {
    forall i :: 0 <= i <= |ops| ==> SelfName(Run(o, ops)[i].group) == SelfName(o.group)
  }

  // Only the owner signs with its key: a genuine roster under that key is the sync
  // of some state of the run. Junk and rosters under other keys may come as well.
  ghost predicate SentByOwner(o: Owner, ops: seq<Op>, rs: seq<RosterSync>) {
    forall r :: r in rs && Genuine(r) && r.pubkey == o.group.pubkey ==>
      exists i :: 0 <= i <= |ops| && SyncOf(Run(o, ops)[i].group) == Ok(r)
  }

  lemma OwnerSyncsAreConsistent(o: Owner, ops: seq<Op>, i: nat, j: nat)
    requires Inv(o) && SteadyName(o, ops) && i <= j <= |ops|
    requires Run(o, ops)[i].group.version == Run(o, ops)[j].group.version
    ensures SyncOf(Run(o, ops)[i].group) == SyncOf(Run(o, ops)[j].group)
  {
    RunKeeps(o, ops, i, j);
    VersionNamesOneRoster(o, ops, i, j);
  }

  lemma SyncFields(state: Group, r: RosterSync)
    requires SyncOf(state) == Ok(r)
    ensures r.owner == state.owner && r.pubkey == state.pubkey
    ensures OwnerInv(state) ==> r.version == state.version
  {
    hide Canonical;
  }

  lemma SentFields(o: Owner, ops: seq<Op>, r: RosterSync, i: nat)
    requires Inv(o) && i <= |ops| && SyncOf(Run(o, ops)[i].group) == Ok(r)
    ensures Lower(r.owner) == o.group.owner && r.pubkey == o.group.pubkey && r.version == Run(o, ops)[i].group.version
  {
    hide SyncOf, Run, SignedNow;
    AddressIsPlain(o.group.my);
    RunKeeps(o, ops, 0, i);
    RunKeeps(o, ops, i, i);
    SyncFields(Run(o, ops)[i].group, r);
  }

  lemma OwnerRunHypotheses(o: Owner, ops: seq<Op>, m: Group, rs: seq<RosterSync>)
    requires Inv(o) && SteadyName(o, ops) && SentByOwner(o, ops, rs)
    requires m.pubkey == o.group.pubkey && m.pubkey.Some?
    ensures OneRosterPerVersion(m, rs)
  {
    hide Genuine, SyncOf, Run, Inv, SteadyName;
    forall r, q | r in rs && q in rs && Counts(m, r) && Counts(m, q) && OrOne(r.version) == OrOne(q.version)
      ensures SameContent(r, q)
    {
      var i :| 0 <= i <= |ops| && SyncOf(Run(o, ops)[i].group) == Ok(r);
      var j :| 0 <= j <= |ops| && SyncOf(Run(o, ops)[j].group) == Ok(q);
      SentFields(o, ops, r, i);
      SentFields(o, ops, q, j);
      VersionAtLeastOne(o, ops, i);
      VersionAtLeastOne(o, ops, j);
      if i <= j {
        OwnerSyncsAreConsistent(o, ops, i, j);
      } else {
        OwnerSyncsAreConsistent(o, ops, j, i);
      }
    }
  }

  lemma VersionAtLeastOne(o: Owner, ops: seq<Op>, i: nat)
    requires Inv(o) && i <= |ops|
    ensures Run(o, ops)[i].group.version >= 1
  {
    RunKeeps(o, ops, i, i);
  }

  // What a member whose address is my holds of an owner's state.
  ghost predicate Mirrors(n: Group, state: Group, my: string) {
    && n.version == state.version && n.name == state.name && n.owner == state.owner
    && n.signature == state.signature && n.pubkey == state.pubkey
    && (if HasAddress(state.members, my) then n.members == Without(Canonical(state), my)
        else n.members == [] && n.joinToken.None?)
  }

  lemma AdoptMirrors(g: Group, state: Group, r: RosterSync)
    requires OwnerInv(state) && SyncOf(state) == Ok(r)
    requires IsB32(g.my) && g.my != state.my
    ensures Mirrors(Adopt(g, r), state, g.my)
    ensures SelfRemoved(g, r) <==> !HasAddress(state.members, g.my)
  {
    hide Trim, Lower, ValidAddress, NormalizeValid, Canonical, HasAddress, MergeMembers, Genuine;
    AddressIsPlain(g.my);
    AddressIsPlain(state.my);
    SyncRebuilds(state);
    ListedInCanonical(state, g.my);
    CleanStateFields(state);
  }

  lemma ListedInCanonical(state: Group, my: string)
    requires CleanRecord(state) && IsB32(my) && my != state.my
    ensures MergeMembers(my, [], Canonical(state)) == Without(Canonical(state), my)
    ensures HasAddress(Canonical(state), my) <==> HasAddress(state.members, my)
  {
    hide IsB32, CleanRecord, AllClean, Ordered, Canonical, MergeMembers, Without;
    CanonicalOfClean(state);
    assert [] + Canonical(state) == Canonical(state);
    assert [] + Without(Canonical(state), my) == Without(Canonical(state), my);
    WithoutSelf(my, Canonical(state), []);
    OwnAddress(state);
  }

  lemma OwnAddress(state: Group)
    requires CleanRecord(state)
    ensures Lower(Me(state).b32) == state.my
  {
    AddressIsPlain(state.my);
  }

  lemma CleanStateFields(state: Group)
    requires CleanRecord(state)
    ensures IsB32(state.my) && state.owner == state.my && state.version >= 1
  {
  }

  lemma SharedMirrors(n: Group, q: Group, state: Group, my: string)
    requires Shared(n) == Shared(q) && Mirrors(q, state, my)
    requires !HasAddress(state.members, my) ==> n.joinToken.None?
    ensures Mirrors(n, state, my)
  {
    hide Canonical, HasAddress;
    assert Mirrors(Shared(q), state, my) && Shared(n).members == n.members && Shared(n).signature == n.signature;
  }

  lemma MyStays(o: Owner, ops: seq<Op>, i: nat)
    requires Inv(o) && i <= |ops|
    ensures OwnerInv(Run(o, ops)[i].group) && Run(o, ops)[i].group.my == o.group.my
  {
    RunKeeps(o, ops, 0, i);
    RunKeeps(o, ops, i, i);
  }

  lemma AdoptedIsMirrored(o: Owner, ops: seq<Op>, m: Group, n: Group, r: RosterSync, i: nat)
    requires Inv(o) && i <= |ops| && SyncOf(Run(o, ops)[i].group) == Ok(r)
    requires IsB32(m.my) && m.my != o.group.my
    requires Took(m, r, n)
    ensures Mirrors(n, Run(o, ops)[i].group, m.my)
  {
    hide Run, SyncOf, Mirrors, Adopt, IsB32, OwnerInv, SelfRemoved, HasAddress;
    MyStays(o, ops, i);
    AdoptMirrors(m, Run(o, ops)[i].group, r);
    SharedMirrors(n, Adopt(m, r), Run(o, ops)[i].group, m.my);
  }

  // What the owner signed after the first i operations is among the rosters.
  predicate Received(o: Owner, ops: seq<Op>, i: nat, rs: seq<RosterSync>)
    requires i <= |ops|
  {
    var sync := SyncOf(Run(o, ops)[i].group);
    sync.Ok? && sync.value in rs
  }

  // End to end: a member that pinned the owner's key mirrors the newest of the
  // owner's states among what it received, however that arrived and whatever else
  // arrived with it.
  lemma MemberMirrorsNewest(o: Owner, ops: seq<Op>, m: Group, rs: seq<RosterSync>)
    requires Inv(o) && SentByOwner(o, ops, rs)
    requires IsB32(m.my) && m.my != o.group.my
    requires m.owner == o.group.owner && m.pubkey == o.group.pubkey
    ensures var n := ReceiveAll(m, rs);
            && (forall r :: r in rs && Counts(m, r) ==> OrOne(r.version) <= OrOne(n.version))
            && (n == m || exists i :: 0 <= i <= |ops| && Received(o, ops, i, rs)
                                      && Mirrors(n, Run(o, ops)[i].group, m.my))
            && n.joinToken == if TookOverWithoutSelf(m, rs) then None else m.joinToken
  {
    hide Genuine, ReceiveAll, SyncOf, Run, Mirrors, Adopt, IsB32, Inv, SelfRemoved, TookOverWithoutSelf;
    OwnerIsPinnable(o);
    PinnedEndsAtHighest(m, rs);
    JoinTokenKeptIff(m, rs);
    var n := ReceiveAll(m, rs);
    if n != m {
      var r :| r in rs && Counts(m, r) && OrOne(r.version) > OrOne(m.version) && Took(m, r, n);
      var i :| 0 <= i <= |ops| && SyncOf(Run(o, ops)[i].group) == Ok(r);
      AdoptedIsMirrored(o, ops, m, n, r, i);
    }
  }

  lemma OwnerIsPinnable(o: Owner)
    requires Inv(o)
    ensures o.group.owner != "" && o.group.pubkey.Some?
  {
    hide Canonical, ReadAll;
  }

  // And any two such members that received the same of the owner's rosters hold
  // the same group, as long as the owner keeps its own display name.
  lemma MembersAgree(o: Owner, ops: seq<Op>, m: Group, rs: seq<RosterSync>, qs: seq<RosterSync>)
    requires Inv(o) && SteadyName(o, ops) && SentByOwner(o, ops, rs)
    requires m.owner == o.group.owner && m.pubkey == o.group.pubkey
    requires forall r :: Counts(m, r) ==> (r in rs <==> r in qs)
    ensures Shared(ReceiveAll(m, rs)) == Shared(ReceiveAll(m, qs))
  {
    hide Genuine, ReceiveAll, Run, Inv, SteadyName, SentByOwner, OneRosterPerVersion;
    OwnerIsPinnable(o);
    OwnerRunHypotheses(o, ops, m, rs);
    PinnedConverge(m, rs, qs);
  }
}
