// What each change of the owner's member list comes to, member by member.
module RosterEffects {
  import opened Basics
  import opened Text
  import opened MemberOrder
  import opened Roster
  import opened RosterOwner

  lemma {:induction false} PositionOf(list: seq<Member>, x: Member)
    requires DistinctAddresses(list) && x in list
    ensures Position(list, Lower(x.b32)) < |list| && list[Position(list, Lower(x.b32))] == x
  {
    hide Lower, LexLess;
    if list[0] == x {
    } else {
      var j :| 0 <= j < |list| && list[j] == x;
      assert list[1..][j - 1] == x;
      assert Lower(list[0].b32) != Lower(x.b32);
      PositionOf(list[1..], x);
    }
  }

  lemma ReplaceContents(list: seq<Member>, i: nat, n: Member, x: Member)
    requires DistinctAddresses(list) && i < |list|
    ensures x in list[i := n] <==> x == n || (x in list && Lower(x.b32) != Lower(list[i].b32))
  {
    var r := list[i := n];
    if x in list && Lower(x.b32) != Lower(list[i].b32) {
      var j :| 0 <= j < |list| && list[j] == x;
      assert r[j] == x;
    }
    assert r[i] == n;
    if x in r && x != n {
      var j :| 0 <= j < |r| && r[j] == x;
      assert list[j] == x && j != i;
    }
  }

  lemma AppendContents(list: seq<Member>, n: Member, x: Member)
    requires DistinctAddresses(list) && forall m :: m in list ==> Lower(m.b32) != Lower(n.b32)
    ensures x in Sort(list + [n]) <==> x == n || x in list
  {
    var all := list + [n];
    forall i, j | 0 <= i < j < |all|
      ensures Lower(all[i].b32) != Lower(all[j].b32)
    {
      assert i < |list| ==> all[i] == list[i] && list[i] in list;
    }
    SortOrders(all);
  }

  predicate Admissible(my: string, m: Member) {
    ValidAddress(Normalize(m).b32) && (my == "" || Lower(Normalize(m).b32) != Lower(my))
  }

  // Merging a member puts it in the place of whoever had its address and leaves
  // everyone else; oneself and unusable addresses are never merged.
  lemma MergeContents(my: string, list: seq<Member>, m: Member, x: Member)
    requires DistinctAddresses(list)
    ensures x in MergeMember(my, list, m)
       <==> if Admissible(my, m) then x == Normalize(m) || (x in list && Lower(x.b32) != Lower(Normalize(m).b32))
            else x in list
  {
    hide Lower, Normalize, ValidAddress, Sort;
    var n := Normalize(m);
    if Admissible(my, m) {
      var i := Position(list, Lower(n.b32));
      if i < |list| {
        ReplaceContents(list, i, n, x);
      } else {
        AppendContents(list, n, x);
      }
    }
  }

  lemma {:induction false} WithoutContents(list: seq<Member>, addr: string, x: Member)
    ensures x in Without(list, addr) <==> x in list && Lower(x.b32) != addr
  {
    if list != [] {
      WithoutContents(list[1..], addr, x);
    }
  }

  // A signature made by the owner is on the record as it stands.
  lemma SignedAsItStands(g: Group, spare: nat)
    requires IsAdmin(g)
    ensures SignedNow(SignIfAdmin(g, spare))
  {
    hide Lower, Canonical;
    CanonicalNeedsNoKey(g, SignIfAdmin(g, spare));
  }

  // A redemption succeeds exactly if the owner knows the token, the name is usable
  // and the token is free or already this address's.
  lemma RedeemsIff(g: Group, token: string, m: Member, spare: nat)
    ensures Redeem(g, token, m, spare).Ok?
       <==> && IsAdmin(g) && ValidName(m.name)
            && TokenPosition(g.invites, token) < |g.invites|
            && var taken := g.invites[TokenPosition(g.invites, token)].redeemed;
               taken == "" || Lower(taken) == Lower(Normalize(m).b32)
  {
  }

  // It binds that token to the address, admits the member, raises the version if
  // and only if the list changed, and leaves a current signature.
  lemma RedeemEffect(g: Group, token: string, m: Member, spare: nat, x: Member)
    requires DistinctAddresses(g.members) && Redeem(g, token, m, spare).Ok?
    ensures var (h, i, n) := (Redeem(g, token, m, spare).value, TokenPosition(g.invites, token), Normalize(m));
            && h.invites == g.invites[i := Invite(token, n.b32)]
            && (x in h.members <==>
                  if Admissible(g.my, n)
                  then x == Normalize(n) || (x in g.members && Lower(x.b32) != Lower(Normalize(n).b32))
                  else x in g.members)
            && h.version == (if h.members == g.members then g.version else OrOne(g.version) + 1)
            && SignedNow(h)
  {
    hide Normalize, Lower, MergeMember, Canonical, ValidName;
    MergeContents(g.my, g.members, Normalize(m), x);
    var i := TokenPosition(g.invites, token);
    var g1 := g.(invites := g.invites[i := g.invites[i].(redeemed := Normalize(m).b32)]);
    SignedAsItStands(WithMembers(g1, MergeMember(g1.my, g1.members, Normalize(m))), spare);
  }

  // A rename succeeds exactly if the name is usable and the address is a member's.
  lemma RenamesIff(g: Group, b32: string, name: string, spare: nat)
    ensures Rename(g, b32, name, spare).Ok?
       <==> && Trim(name) != "" && |Trim(name)| <= 32
            && (forall c :: c in Trim(name) ==> 32 <= c as int && c as int != 127)
            && ValidAddress(b32) && exists m :: m in g.members && Lower(m.b32) == Lower(Trim(b32))
  {
    hide Lower, Trim, ValidAddress, Canonical;
    var i := Position(g.members, Lower(Trim(b32)));
    if i < |g.members| {
      assert g.members[i] in g.members;
    }
  }

  // It changes the name at one address and nothing else in the list.
  lemma RenameEffect(g: Group, b32: string, name: string, spare: nat, x: Member)
    requires DistinctAddresses(g.members) && Rename(g, b32, name, spare).Ok?
    ensures var (h, addr) := (Rename(g, b32, name, spare).value, Lower(Trim(b32)));
            && (x in h.members <==>
                  if Lower(x.b32) == addr then x.name == Trim(name) && exists y :: y in g.members && y.b32 == x.b32
                  else x in g.members)
            && h.version == (if h.members == g.members then g.version else OrOne(g.version) + 1)
            && (h != g && IsAdmin(g) ==> SignedNow(h))
  {
    hide Lower, Trim, ValidName, ValidAddress, Canonical;
    var i := Position(g.members, Lower(Trim(b32)));
    var y := g.members[i];
    assert y in g.members;
    ReplaceContents(g.members, i, y.(name := Trim(name)), x);
    SoleHolder(g.members, i);
    if IsAdmin(g) {
      SignedAsItStands(g.(members := g.members[i := y.(name := Trim(name))], version := OrOne(g.version) + 1), spare);
    }
  }

  lemma SoleHolder(list: seq<Member>, i: nat)
    requires DistinctAddresses(list) && i < |list|
    ensures forall y :: y in list && Lower(y.b32) == Lower(list[i].b32) ==> y == list[i]
  {
  }

  lemma {:induction false} WithoutShorterIff(list: seq<Member>, addr: string)
    ensures |Without(list, addr)| <= |list|
    ensures |Without(list, addr)| < |list| <==> HasAddress(list, addr)
  {
    if list != [] {
      WithoutShorterIff(list[1..], addr);
      assert HasAddress(list, addr) <==> Lower(list[0].b32) == addr || HasAddress(list[1..], addr);
    }
  }

  // A removal starts exactly if the owner names a member that is neither itself
  // nor the owner.
  lemma RemovalStartsIff(g: Group, b32: string)
    ensures StartRemove(g, b32).Ok?
       <==> && IsAdmin(g) && Lower(Trim(b32)) !in {"", Lower(g.my), Lower(g.owner)}
            && HasAddress(g.members, Lower(Trim(b32)))
  {
    hide Lower, Trim;
    WithoutShorterIff(g.members, Lower(Trim(b32)));
  }

  // ------------------------------------------------------ removals under way

  // Whether this operation renames the entry in place.
  ghost predicate RenamesEntry(o: Owner, op: Op, id: nat) {
    op.DoRename? && Rename(o.group, op.b32, op.name, 0).Ok? && RenamedEntry(o, op.b32) == id
  }

  // An entry never changes but by a rename that reaches it in the record's list.
  lemma EntryAfter(o: Owner, op: Op, id: nat)
    requires id < |o.entries|
    ensures var t := After(o, op);
            && id < |t.entries|
            && t.entries[id] == if RenamesEntry(o, op, id) then o.entries[id].(name := Trim(op.name)) else o.entries[id]
  {
    hide Redeem, Rename, StartRemove, FinishRemove, Issue, SetOwnName, MergeMember, Normalize, RenamedEntry, Trim;
  }

  // The name an entry ends with: that of the last rename that reached it.
  ghost function LastName(o: Owner, ops: seq<Op>, id: nat, name: string): string
    decreases |ops|
  {
    if ops == [] then name
    else LastName(After(o, ops[0]), ops[1..], id, if RenamesEntry(o, ops[0], id) then Trim(ops[0].name) else name)
  }

  // The state at the end of a run.
  function Last(o: Owner, ops: seq<Op>): Owner
    decreases |ops|
  {
    if ops == [] then o else Last(After(o, ops[0]), ops[1..])
  }

  predicate Untouched(removal: nat, ops: seq<Op>) {
    forall op :: op in ops ==> op != DoFinishRemove(removal)
  }

  lemma PendingAfter(o: Owner, op: Op, removal: nat)
    requires removal in o.pending && op != DoFinishRemove(removal)
    ensures removal in After(o, op).pending && After(o, op).pending[removal] == o.pending[removal]
  {
    hide Redeem, Rename, StartRemove, FinishRemove, Issue, SetOwnName, MergeMember, Normalize, KeepIds, ReadAll;
  }

  lemma {:induction false} EntriesAtEnd(o: Owner, ops: seq<Op>, removal: nat, id: nat)
    requires removal in o.pending && Untouched(removal, ops) && id < |o.entries|
    ensures var t := Last(o, ops);
            && removal in t.pending && t.pending[removal] == o.pending[removal]
            && id < |t.entries|
            && t.entries[id] == Member(LastName(o, ops, id, o.entries[id].name), o.entries[id].b32)
    decreases |ops|
  {
    hide After, RenamesEntry;
    if ops != [] {
      assert ops[0] in ops && forall op :: op in ops[1..] ==> op in ops;
      PendingAfter(o, ops[0], removal);
      EntryAfter(o, ops[0], id);
      EntriesAtEnd(After(o, ops[0]), ops[1..], removal, id);
    }
  }

  // The entries a removal under way will leave.
  function Keeps(o: Owner, removal: nat): seq<nat> {
    if removal in o.pending then o.pending[removal] else []
  }

  // Each kept member under the name of the last rename that reached its entry.
  ghost predicate LeftAsKept(start: Owner, ops: seq<Op>, kept: seq<Member>, ids: seq<nat>, left: seq<Member>) {
    && |left| == |kept| == |ids|
    && forall k :: 0 <= k < |kept| ==> left[k] == Member(LastName(start, ops, ids[k], kept[k].name), kept[k].b32)
  }

  // What a removal leaves, whatever the owner does between its start and its end:
  // exactly who was there at the start without the holder of the address, in their
  // order, each under the name of the last rename that reached that very entry.
  lemma RemovalOutcome(o: Owner, removal: nat, address: string, kept: seq<Member>, ops: seq<Op>, start: Owner, end: Owner)
    requires Inv(o) && removal !in o.pending && StartRemove(o.group, address) == Ok(kept)
    requires start == After(o, DoStartRemove(removal, address)) && Untouched(removal, ops)
    requires end == After(Last(start, ops), DoFinishRemove(removal))
    ensures LeftAsKept(start, ops, kept, Keeps(start, removal), end.group.members)
  {
    hide Inv, StartRemove, KeepIds, Last, LastName, FinishRemove;
    StartedReads(o, address);
    var ids := start.pending[removal];
    LastKeepsPending(start, ops, removal);
    var t := Last(start, ops);
    FinishedMembers(t.group, ReadAll(t.entries, ids));
    forall k | 0 <= k < |kept|
      ensures end.group.members[k] == Member(LastName(start, ops, ids[k], kept[k].name), kept[k].b32)
    {
      StartedIds(o, address, k);
      EntriesAtEnd(start, ops, removal, ids[k]);
    }
  }

  lemma StartedReads(o: Owner, address: string)
    requires Inv(o) && StartRemove(o.group, address).Ok?
    ensures ReadAll(o.entries, KeepIds(o.entries, o.ids, Lower(Trim(address)))) == StartRemove(o.group, address).value
  {
    hide OwnerInv, KeepIds, ReadAll, CleanList;
    KeptReads(o.entries, o.ids, Lower(Trim(address)));
  }

  lemma StartedIds(o: Owner, address: string, k: nat)
    requires Inv(o) && k < |KeepIds(o.entries, o.ids, Lower(Trim(address)))|
    ensures KeepIds(o.entries, o.ids, Lower(Trim(address)))[k] < |o.entries|
  {
    hide OwnerInv, KeepIds, ReadAll, CleanList;
    KeptAreEntries(o.entries, o.ids, Lower(Trim(address)));
  }

  lemma {:induction false} LastKeepsPending(o: Owner, ops: seq<Op>, removal: nat)
    requires removal in o.pending && Untouched(removal, ops)
    ensures removal in Last(o, ops).pending && Last(o, ops).pending[removal] == o.pending[removal]
    decreases |ops|
  {
    hide After;
    if ops != [] {
      assert ops[0] in ops && forall op :: op in ops[1..] ==> op in ops;
      PendingAfter(o, ops[0], removal);
      LastKeepsPending(After(o, ops[0]), ops[1..], removal);
    }
  }

  // The end of a removal raises the version, keeps the invites and signs, and ends it.
  lemma FinishEffect(o: Owner, removal: nat)
    requires Inv(o) && removal in o.pending
    ensures var h := After(o, DoFinishRemove(removal)).group;
            h.version == o.group.version + 1 && h.invites == o.group.invites && SignedNow(h)
    ensures After(o, DoFinishRemove(removal)).pending == o.pending - {removal}
  {
    hide Lower, Trim, Canonical, ReadAll;
    SignedAsItStands(o.group.(members := ReadAll(o.entries, o.pending[removal]), version := OrOne(o.group.version) + 1), 0);
  }

  // A rename of someone who stays survives the end of the removal exactly if the
  // record still lists the entry the removal keeps for that address.
  lemma RenameSurvivesIff(o: Owner, removal: nat, b32: string, name: string, id: nat, t: Owner, end: Owner)
    requires Inv(o) && id in Keeps(o, removal)
    requires Lower(Read(o.entries, id).b32) == Lower(Trim(b32)) && Read(o.entries, id).name != Trim(name)
    requires Rename(o.group, b32, name, 0).Ok?
    requires t == After(o, DoRename(b32, name)) && end == After(t, DoFinishRemove(removal))
    ensures Member(Trim(name), Read(o.entries, id).b32) in end.group.members <==> RenamedEntry(o, b32) == id
  {
    hide OwnerInv, Rename, RenamedEntry, FinishRemove, Lower, Trim, Entries, ReadAll;
    var ids := o.pending[removal];
    var i :| 0 <= i < |ids| && ids[i] == id;
    PendingIds(o, removal, i);
    EntryAfter(o, DoRename(b32, name), id);
    FinishedMembers(t.group, ReadAll(t.entries, ids));
    OneAtAddress(o, removal, i, t, Member(Trim(name), Read(o.entries, id).b32));
  }

  // Whoever of the address is left after a rename is the entry kept for it.
  lemma OneAtAddress(o: Owner, removal: nat, i: nat, t: Owner, m: Member)
    requires Inv(o) && removal in o.pending && i < |o.pending[removal]|
    requires |t.entries| == |o.entries| && forall k :: 0 <= k < |o.entries| ==> t.entries[k].b32 == o.entries[k].b32
    requires m.b32 == Read(o.entries, o.pending[removal][i]).b32
    ensures m in ReadAll(t.entries, o.pending[removal]) <==> m == Read(t.entries, o.pending[removal][i])
  {
    hide OwnerInv, AllClean, Ordered, NewAddress;
    var ids := o.pending[removal];
    var (was, now) := (ReadAll(o.entries, ids), ReadAll(t.entries, ids));
    OrderedIsDistinct(was);
    SoleAt(was, now, i, m);
  }

  lemma SoleAt(was: seq<Member>, now: seq<Member>, i: nat, m: Member)
    requires |was| == |now| && i < |was| && DistinctAddresses(was)
    requires forall j :: 0 <= j < |was| ==> now[j].b32 == was[j].b32
    requires m.b32 == was[i].b32
    ensures m in now <==> m == now[i]
  {
    hide Lower;
    if m in now {
      var j :| 0 <= j < |now| && now[j] == m;
      assert Lower(was[j].b32) == Lower(was[i].b32);
    }
  }

  lemma PendingIds(o: Owner, removal: nat, k: nat)
    requires Inv(o) && removal in o.pending && k < |o.pending[removal]|
    ensures o.pending[removal][k] < |o.entries|
  {
    hide OwnerInv, CleanList, ReadAll;
  }

  // It does right after the start of the removal.
  lemma SharedAtStart(o: Owner, removal: nat, address: string, start: Owner, id: nat)
    requires Inv(o) && removal !in o.pending && start == After(o, DoStartRemove(removal, address))
    requires id in Keeps(start, removal)
    ensures id in start.ids
  {
    hide OwnerInv, KeepIds, ReadAll, CleanList, StartRemove;
    KeptAreEntries(o.entries, o.ids, Lower(Trim(address)));
  }

  // And no more once a redemption under a new name or an invite read back from
  // the file put another entry in its place: the record's entries are new then.
  lemma RejoinedIsNewEntry(o: Owner, token: string, m: Member)
    requires Inv(o) && Redeem(o.group, token, m, 0).Ok?
    requires Redeem(o.group, token, m, 0).value.members != o.group.members
    ensures exists id :: id in After(o, DoRedeem(token, m)).ids && id >= |o.entries|
                         && Read(After(o, DoRedeem(token, m)).entries, id) == Normalize(Normalize(m))
    ensures forall id :: id in After(o, DoRedeem(token, m)).ids && id < |o.entries| ==> id in o.ids
  {
    hide OwnerInv, ReadAll, CleanList, Normalize, Redeem, MergeMember;
    RedeemedMembers(o.group, token, m);
    var t := After(o, DoRedeem(token, m));
    var n := Normalize(Normalize(m));
    assert t.entries[|o.entries|] == n;
    MergedIds(o, Normalize(m));
    assert |o.entries| in t.ids;
  }

  lemma MergedIds(o: Owner, m: Member)
    requires MergeMember(o.group.my, o.group.members, m) != o.group.members && |o.ids| == |o.group.members|
    ensures |o.entries| in MergeEntry(o, m).ids
    ensures forall id :: id in MergeEntry(o, m).ids ==> id == |o.entries| || id in o.ids
  {
    hide Normalize, MergeMember, Lower, KeyLess;
    var (list, n) := (o.group.members, Normalize(m));
    var (i, k) := (Position(list, Lower(n.b32)), InsertPlace(n, list));
    var t := MergeEntry(o, m);
    if i < |list| {
      assert t.ids[i] == |o.entries|;
    } else {
      assert t.ids[k] == |o.entries|;
    }
  }

  lemma ReloadedIsNewEntries(o: Owner, token: string)
    requires Issue(o.group, token, 0).Ok?
    ensures forall id :: id in After(o, DoIssue(token, true)).ids ==> id >= |o.entries|
  {
    hide Issue;
  }

  // A member admitted while a removal closes the other's stream is dropped again
  // when it ends, with its token still bound to it.
  lemma AdmissionLostToRemoval(o: Owner, removal: nat, token: string, m: Member, n: Member, t: Owner, end: Owner)
    requires Inv(o) && removal in o.pending && Redeem(o.group, token, m, 0).Ok?
    requires n == Normalize(Normalize(m)) && Admissible(o.group.my, Normalize(m))
    requires !HasEntry(ReadAll(o.entries, o.pending[removal]), n.b32)
    requires t == After(o, DoRedeem(token, m)) && end == After(t, DoFinishRemove(removal))
    ensures n in t.group.members && !HasEntry(end.group.members, n.b32)
    ensures BoundTo(end.group.invites, token, Normalize(m).b32)
  {
    hide OwnerInv, Normalize, Redeem, MergeEntry, Admissible, FinishRemove, CleanList, Entries, ReadAll;
    RedeemOnEntries(o, token, m);
    RedeemsIff(o.group, token, m, 0);
    DistinctMembers(o);
    RedeemEffect(o.group, token, m, 0, n);
    var remaining := ReadAll(t.entries, o.pending[removal]);
    FinishedMembers(t.group, remaining);
    FinishedInvites(t.group, remaining);
    PendingReadsSame(o, t, removal);
    FirstStaysFirst(o.group.invites, token, Normalize(m).b32);
  }

  // A name taken by a redemption meanwhile is lost: the removal leaves the name
  // its own entry for that address has.
  lemma RejoinLostToRemoval(o: Owner, removal: nat, token: string, m: Member, x: Member, t: Owner, end: Owner)
    requires Inv(o) && removal in o.pending && Redeem(o.group, token, m, 0).Ok?
    requires x in ReadAll(o.entries, o.pending[removal])
    requires t == After(o, DoRedeem(token, m)) && end == After(t, DoFinishRemove(removal))
    ensures x in end.group.members && forall y :: y in end.group.members && y.b32 == x.b32 ==> y == x
  {
    hide OwnerInv, Normalize, Redeem, MergeEntry, FinishRemove, AllClean, Entries, ReadAll, LexLess, Lower;
    RedeemOnEntries(o, token, m);
    var remaining := ReadAll(t.entries, o.pending[removal]);
    FinishedMembers(t.group, remaining);
    PendingReadsSame(o, t, removal);
    OrderedIsDistinct(remaining);
  }

  // The first invite with a token is redeemed by an address.
  predicate BoundTo(invites: seq<Invite>, token: string, b32: string) {
    var i := TokenPosition(invites, token);
    i < |invites| && invites[i].redeemed == b32
  }

  lemma {:induction false} FirstStaysFirst(invites: seq<Invite>, token: string, b32: string)
    requires TokenPosition(invites, token) < |invites|
    ensures BoundTo(invites[TokenPosition(invites, token) := Invite(token, b32)], token, b32)
  {
    var after := invites[TokenPosition(invites, token) := Invite(token, b32)];
    if invites[0].token != token {
      FirstStaysFirst(invites[1..], token, b32);
      assert after[1..] == invites[1..][TokenPosition(invites[1..], token) := Invite(token, b32)];
    }
  }

  predicate HasEntry(list: seq<Member>, b32: string) {
    exists x :: x in list && x.b32 == b32
  }

  lemma FinishedInvites(g: Group, remaining: seq<Member>)
    ensures FinishRemove(g, remaining, 0).invites == g.invites
  {
  }

  lemma DistinctMembers(o: Owner)
    requires Inv(o)
    ensures DistinctAddresses(o.group.members)
  {
    OrderedIsDistinct(o.group.members);
  }

  lemma RedeemOnEntries(o: Owner, token: string, m: Member)
    requires Redeem(o.group, token, m, 0).Ok?
    ensures var t := After(o, DoRedeem(token, m));
            o.entries <= t.entries && t.pending == o.pending && t.group == Redeem(o.group, token, m, 0).value
  {
    hide Normalize, Redeem, MergeMember;
  }

  lemma PendingReadsSame(o: Owner, t: Owner, removal: nat)
    requires Inv(o) && removal in o.pending && o.entries <= t.entries
    ensures ReadAll(t.entries, o.pending[removal]) == ReadAll(o.entries, o.pending[removal])
  {
    hide OwnerInv, CleanList;
    assert t.entries == o.entries + t.entries[|o.entries|..];
    ReadAllOfMore(o.entries, t.entries[|o.entries|..], o.pending[removal]);
  }

  // ------------------------------------------------ merging a list of members

  // Looking from the end, the first entry that is merged under this address.
  function LastUnder(my: string, incoming: seq<Member>, addr: string): Option<Member> {
    if incoming == [] then None
    else
      var m := incoming[|incoming| - 1];
      if Admissible(my, m) && Lower(Normalize(m).b32) == addr then Some(Normalize(m))
      else LastUnder(my, incoming[..|incoming| - 1], addr)
  }

  lemma {:induction false} MergeOneMore(my: string, list: seq<Member>, incoming: seq<Member>, m: Member)
    ensures MergeMembers(my, list, incoming + [m]) == MergeMember(my, MergeMembers(my, list, incoming), m)
    decreases |incoming|
  {
    hide MergeMember;
    if incoming == [] {
      assert [] + [m] == [m] && [m][1..] == [];
    } else {
      assert (incoming + [m])[0] == incoming[0] && (incoming + [m])[1..] == incoming[1..] + [m];
      MergeOneMore(my, MergeMember(my, list, incoming[0]), incoming[1..], m);
    }
  }

  lemma MergeKeepsDistinct(my: string, list: seq<Member>, m: Member)
    requires DistinctAddresses(list)
    ensures DistinctAddresses(MergeMember(my, list, m))
  {
    hide Lower, Normalize, ValidAddress, Sort, Ordered;
    var n := Normalize(m);
    if Admissible(my, m) {
      var i := Position(list, Lower(n.b32));
      if i == |list| {
        var all := list + [n];
        forall j, k | 0 <= j < k < |all|
          ensures Lower(all[j].b32) != Lower(all[k].b32)
        {
        }
        SortOrders(all);
        OrderedIsDistinct(Sort(all));
      }
    }
  }

  // After a whole list was merged, each address is held by the last entry that was
  // usable for it, and by whoever held it before where there was none.
  lemma {:induction false} MergesLast(my: string, list: seq<Member>, incoming: seq<Member>, x: Member)
    requires DistinctAddresses(list)
    ensures DistinctAddresses(MergeMembers(my, list, incoming))
    ensures x in MergeMembers(my, list, incoming)
       <==> match LastUnder(my, incoming, Lower(x.b32))
            case Some(n) => x == n
            case None => x in list
    decreases |incoming|
  {
    hide Lower, Normalize, MergeMember, Admissible, DistinctAddresses;
    if incoming != [] {
      var front, m := incoming[..|incoming| - 1], incoming[|incoming| - 1];
      assert incoming == front + [m];
      MergesLast(my, list, front, x);
      MergeOneMore(my, list, front, m);
      MergeKeepsDistinct(my, MergeMembers(my, list, front), m);
      MergeContents(my, MergeMembers(my, list, front), m, x);
    }
  }

  // ------------------------------------------------------------------ invites

  // An invite can be issued exactly by the owner. It appends a free token and a
  // current signature; members and version stay.
  lemma IssueEffect(g: Group, token: string, spare: nat)
    ensures Issue(g, token, spare).Ok? <==> g.my != "" && g.owner != "" && Lower(g.my) == Lower(g.owner)
    ensures Issue(g, token, spare).Ok? ==>
              var h := Issue(g, token, spare).value;
              && h.invites == g.invites + [Invite(token, "")] && SignedNow(h)
              && h.members == g.members && h.version == g.version && h.joinToken == g.joinToken
  {
    hide Lower, Canonical;
    if IsAdmin(g) {
      SignedAsItStands(g, spare);
      CanonicalNeedsNoKey(g, Issue(g, token, spare).value);
    }
  }

  // The first invite with this token is the k-th, and nobody has redeemed it.
  ghost predicate FreeAt(invites: seq<Invite>, token: string, k: nat) {
    && k < |invites| && invites[k] == Invite(token, "")
    && forall j :: 0 <= j < k ==> invites[j].token != token
  }

  lemma {:induction false} FreeIsFirst(invites: seq<Invite>, token: string, k: nat)
    requires FreeAt(invites, token, k)
    ensures TokenPosition(invites, token) == k
  {
    if k > 0 {
      assert forall j :: 0 <= j < |invites[1..]| ==> invites[1..][j] == invites[j + 1];
      FreeIsFirst(invites[1..], token, k - 1);
    }
  }

  lemma FreeStays(o: Owner, op: Op, token: string, k: nat)
    requires FreeAt(o.group.invites, token, k) && !(op.DoRedeem? && op.token == token)
    ensures FreeAt(After(o, op).group.invites, token, k)
  {
    hide MergeMember, MergeEntry, Normalize, Lower, Trim, Canonical, ReadAll, KeepIds, ValidName, RenamedEntry;
  }

  lemma {:induction false} FreeThroughout(o: Owner, ops: seq<Op>, token: string, k: nat)
    requires FreeAt(o.group.invites, token, k)
    requires forall op :: op in ops ==> !(op.DoRedeem? && op.token == token)
    ensures FreeAt(Last(o, ops).group.invites, token, k)
    decreases |ops|
  {
    hide After, FreeAt;
    if ops != [] {
      assert ops[0] in ops && forall op :: op in ops[1..] ==> op in ops;
      FreeStays(o, ops[0], token, k);
      FreeThroughout(After(o, ops[0]), ops[1..], token, k);
    }
  }

  lemma {:induction false} LastKeeps(o: Owner, ops: seq<Op>)
    requires Inv(o)
    ensures Inv(Last(o, ops))
    decreases |ops|
  {
    hide Inv, After, StepOk;
    if ops != [] {
      OpKeeps(o, ops[0]);
      LastKeeps(After(o, ops[0]), ops[1..]);
    }
  }

  // An issued token lets its first redeemer in, whatever the owner does in between:
  // anyone with a usable name gets it, and, with a usable address that is not the
  // owner's, is a member then, under that name.
  lemma IssuedTokenAdmits(o: Owner, token: string, reloaded: bool, ops: seq<Op>, m: Member)
    requires Inv(o) && forall v :: v in o.group.invites ==> v.token != token
    requires forall op :: op in ops ==> !(op.DoRedeem? && op.token == token)
    requires ValidName(m.name)
    ensures var t := Last(After(o, DoIssue(token, reloaded)), ops);
            var r := Redeem(t.group, token, m, 0);
            && r.Ok?
            && (Admissible(t.group.my, Normalize(m)) ==> Normalize(Normalize(m)) in r.value.members)
            && exists k :: 0 <= k < |r.value.invites| && r.value.invites[k] == Invite(token, Normalize(m).b32)
  {
    hide After, Inv, Redeem, Normalize, Admissible, FreeAt, ValidName;
    var o1 := After(o, DoIssue(token, reloaded));
    IssuedIsFree(o, token, reloaded);
    FreeThroughout(o1, ops, token, |o.group.invites|);
    OpKeeps(o, DoIssue(token, reloaded));
    LastKeeps(o1, ops);
    RedeemsFree(Last(o1, ops), token, |o.group.invites|, m);
  }

  lemma IssuedIsFree(o: Owner, token: string, reloaded: bool)
    requires Inv(o) && forall v :: v in o.group.invites ==> v.token != token
    ensures FreeAt(After(o, DoIssue(token, reloaded)).group.invites, token, |o.group.invites|)
  {
    hide Entries, CleanList, ReadAll, Canonical, Lower;
    IssueEffect(o.group, token, 0);
    OwnerIsAdmin(o.group);
  }

  lemma OwnerIsAdmin(g: Group)
    requires OwnerInv(g)
    ensures IsAdmin(g) && DistinctAddresses(g.members)
  {
    OrderedIsDistinct(g.members);
  }

  lemma RedeemsFree(o: Owner, token: string, k: nat, m: Member)
    requires Inv(o) && FreeAt(o.group.invites, token, k) && ValidName(m.name)
    ensures var r := Redeem(o.group, token, m, 0);
            && r.Ok? && k < |r.value.invites| && r.value.invites[k] == Invite(token, Normalize(m).b32)
            && (Admissible(o.group.my, Normalize(m)) ==> Normalize(Normalize(m)) in r.value.members)
  {
    hide Redeem, Normalize, Admissible, OwnerInv, ValidName, IsAdmin, DistinctAddresses, Entries, CleanList;
    OwnerIsAdmin(o.group);
    FreeIsFirst(o.group.invites, token, k);
    RedeemsIff(o.group, token, m, 0);
    RedeemEffect(o.group, token, m, 0, Normalize(Normalize(m)));
  }

  // What an invite makes of a record without a signing key: taken exactly if it is
  // well formed, and, if signed, lists the owner and verifies; then each address is
  // held by the invite's last entry for it, older members stay unless it is newer, the
  // version never falls, and the key is pinned exactly if it is signed.
  lemma InviteEffect(g: Group, i: GroupInvite, x: Member)
    requires g.pubkey.None? && DistinctAddresses(g.members)
    ensures var (r, signed) := (MergeInvite(g, i), i.pubkey.Some? && i.signature.Some?);
            var owner := Lower(if i.owner == "" then i.inviter else i.owner);
            && (r.Ok? <==>
                  && Trim(i.groupName) != "" && ValidAddress(i.inviter) && ValidAddress(owner)
                  && (signed ==> HasAddress(InviteMembers(i), owner)
                                 && Verifies(i.groupName, owner, OrOne(i.version), InviteMembers(i), i.pubkey, i.signature)))
            && (r == Err(OwnerMissing) <==>
                  && Trim(i.groupName) != "" && ValidAddress(i.inviter) && ValidAddress(owner)
                  && signed && !HasAddress(InviteMembers(i), owner))
            && (r.Ok? ==>
                  var h := r.value;
                  && h.name == i.groupName && h.owner == owner && h.version == Max(OrOne(g.version), OrOne(i.version))
                  && (h.pubkey.Some? <==> signed) && (signed ==> h.pubkey == i.pubkey && h.signature == i.signature)
                  && (!signed ==> h.signature == g.signature)
                  && h.joinToken == (if i.token == "" then g.joinToken else Some(i.token))
                  && (x in h.members <==>
                        match LastUnder(g.my, InviteMembers(i), Lower(x.b32))
                        case Some(n) => x == n
                        case None => OrOne(i.version) <= OrOne(g.version) && x in g.members))
  {
    hide Lower, Trim, ValidAddress, Verifies, HasAddress, MergeMembers, LastUnder, InviteMembers;
    NoneDistinct();
    MergesLast(g.my, if OrOne(i.version) > OrOne(g.version) then [] else g.members, InviteMembers(i), x);
  }

  lemma NoneDistinct()
    ensures DistinctAddresses([])
  {
  }

  // Taking another display name: exactly a usable one, and the roster is signed anew.
  lemma OwnNameEffect(g: Group, name: string, spare: nat)
    ensures SetOwnName(g, name, spare).Ok? <==> ValidName(name)
    ensures ValidName(name) ==>
              var h := SetOwnName(g, name, spare).value;
              && SelfName(h) == Trim(name) && (IsAdmin(g) ==> SignedNow(h))
              && h.members == g.members && h.version == g.version && h.invites == g.invites
  {
    hide Lower, Canonical, Trim;
    var h := g.(myName := Trim(name));
    if ValidName(name) {
      TrimIsTrimmed(name);
      TrimIsTrimmed(Trim(name));
      if IsAdmin(h) {
        SignedAsItStands(h, spare);
      }
    }
  }

  // ------------------------------------------------------------------ reasons

  // Why a redemption, a rename or the start of a removal is refused: the first check
  // that fails, in the order of the source.
  lemma RedeemVerdict(g: Group, token: string, m: Member, spare: nat)
    ensures var r := Redeem(g, token, m, spare);
            var known := exists v :: v in g.invites && v.token == token;
            && (r == Err(NotOwner) <==> !IsAdmin(g))
            && (r == Err(UnknownToken) <==> IsAdmin(g) && !known)
            && (r == Err(BadName) <==> IsAdmin(g) && known && !ValidName(m.name))
            && (r.Err? && IsAdmin(g) && known && ValidName(m.name) ==> r == Err(TokenTaken))
  {
    hide Lower, Normalize, ValidName, MergeMember, Canonical;
    KnownToken(g.invites, token);
  }

  lemma {:induction false} KnownToken(invites: seq<Invite>, token: string)
    ensures TokenPosition(invites, token) < |invites| <==> exists v :: v in invites && v.token == token
  {
    if invites != [] {
      KnownToken(invites[1..], token);
      assert forall v :: v in invites <==> v == invites[0] || v in invites[1..];
      assert invites[0] in invites;
    }
  }

  lemma RenameVerdict(g: Group, b32: string, name: string, spare: nat)
    ensures var r := Rename(g, b32, name, spare);
            && (r == Err(BadName) <==> !ValidName(name))
            && (r == Err(BadAddress) <==> ValidName(name) && !ValidAddress(b32))
            && (r == Err(NotAMember) <==>
                  ValidName(name) && ValidAddress(b32) && forall m :: m in g.members ==> Lower(m.b32) != Lower(Trim(b32)))
  {
    hide Lower, Trim, ValidAddress, ValidName, Canonical;
    var i := Position(g.members, Lower(Trim(b32)));
    if i < |g.members| {
      assert g.members[i] in g.members;
    }
  }

  lemma RemovalVerdict(g: Group, b32: string)
    ensures var (r, addr) := (StartRemove(g, b32), Lower(Trim(b32)));
            && (r == Err(NotOwner) <==> !IsAdmin(g))
            && (r == Err(BadAddress) <==> IsAdmin(g) && addr in {"", Lower(g.my), Lower(g.owner)})
            && (r == Err(NotAMember) <==>
                  IsAdmin(g) && addr !in {"", Lower(g.my), Lower(g.owner)} && !HasAddress(g.members, addr))
  {
    hide Lower, Trim, HasAddress;
    WithoutShorterIff(g.members, Lower(Trim(b32)));
  }

  // And why a received roster is: its name, its owner, the owner or the key pinned,
  // or its signature. A genuine one that is not newer is no error.
  lemma SyncVerdict(g: Group, r: RosterSync)
    ensures var (v, named, owned) := (MergeSync(g, r), Trim(r.groupName) != "", ValidAddress(Lower(r.owner)));
            var mine := g.owner != "" ==> Lower(g.owner) == Lower(r.owner);
            var keyed := g.pubkey.Some? ==> g.pubkey == r.pubkey;
            && (v == Err(EmptyGroupName) <==> !named)
            && (v == Err(BadAddress) <==> named && !owned)
            && (v == Err(WrongOwner) <==> named && owned && !mine)
            && (v == Err(WrongKey) <==> named && owned && mine && !keyed)
            && (v == Err(BadSignature) <==> named && owned && mine && keyed && !Genuine(r))
            && (v.Ok? <==> mine && keyed && Genuine(r))
  {
    hide Lower, Trim, ValidAddress, Verifies, Adopt;
  }

  // A roster can be sent exactly once the record has an owner, a key and a signature.
  lemma SyncableIff(g: Group)
    ensures SyncOf(g).Ok? <==> g.owner != "" && g.pubkey.Some? && g.signature.Some?
  {
  }

  // The name of a member that gave none.
  lemma DefaultName(address: string)
    requires IsB32(address)
    ensures Normalize(Member("", address)).name == "member-" + address[..8]
  {
    assert ShortB32(address) == address[..8] by { ShortOfAddress(address); }
  }

  lemma ShortOfAddress(address: string)
    requires IsB32(address)
    ensures ShortB32(address) == address[..8]
  {
    assert address[52] == '.' by { assert address[52..][0] == '.'; }
    assert '.' !in address[..52];
    IndexOfUnique(address, '.', 52);
    assert address[..52][..8] == address[..8];
  }

  // A usable name is kept, an overlong one is cut, and none is longer than 32.
  lemma NormalizedName(m: Member)
    ensures |Normalize(m).name| <= 32
    ensures Trim(m.name) != "" ==>
              Normalize(m).name <= Trim(m.name) && |Normalize(m).name| == Min(32, |Trim(m.name)|)
  {
    hide Trim, Lower, UpTo;
  }

  // White space around an address does not matter.
  lemma PaddedAddress(address: string, before: char, after: char)
    requires IsB32(address) && IsSpace(before) && IsSpace(after)
    ensures ValidAddress([before] + address + [after]) && Lower(Trim([before] + address + [after])) == address
  {
    var s := [before] + address + [after];
    AddressIsPlain(address);
    assert s[1..] == address + [after] && address[0] in address;
    assert TrimLeft(s) == address + [after];
    assert (address + [after])[..|address|] == address && address[|address| - 1] in address;
    assert TrimRight(address) == address;
  }

  // ---------------------------------------------------------- the signed list

  // Looking from the front, the first usable entry under this address.
  function FirstUnder(list: seq<Member>, addr: string): Option<Member> {
    if list == [] then None
    else
      var n := Normalize(list[0]);
      if ValidAddress(n.b32) && Lower(n.b32) == addr then Some(n) else FirstUnder(list[1..], addr)
  }

  lemma {:induction false} DedupedContents(list: seq<Member>, seen: set<string>, x: Member)
    ensures DistinctAddresses(Deduped(list, seen))
    ensures forall y :: y in Deduped(list, seen) ==> Lower(y.b32) !in seen
    ensures x in Deduped(list, seen) <==> Lower(x.b32) !in seen && FirstUnder(list, Lower(x.b32)) == Some(x)
  {
    hide Normalize, ValidAddress, Lower;
    if list != [] {
      var n := Normalize(list[0]);
      if ValidAddress(n.b32) && Lower(n.b32) !in seen {
        DedupedContents(list[1..], seen + {Lower(n.b32)}, x);
      } else {
        DedupedContents(list[1..], seen, x);
      }
      FirstHasAddress(list[1..], Lower(x.b32));
    }
  }

  lemma {:induction false} FirstHasAddress(list: seq<Member>, addr: string)
    ensures var n := FirstUnder(list, addr); n.Some? ==> Lower(n.value.b32) == addr
  {
    hide Normalize, ValidAddress, Lower;
    if list != [] {
      FirstHasAddress(list[1..], addr);
    }
  }

  // Whatever the stored member list is, the list that is signed is strictly ordered, and
  // holds for each address the first usable entry; a record of its owner that lists no
  // entry for the owner holds the owner under its own name as well.
  lemma SignedListIs(g: Group, x: Member)
    ensures Ordered(Canonical(g))
    ensures var (my, owner) := (Lower(Trim(g.my)), Lower(Trim(g.owner)));
            (x in Canonical(g)
             <==> || FirstUnder(g.members, Lower(x.b32)) == Some(x)
                  || (my == owner != "" && x == Member(SelfName(g), owner) && FirstUnder(g.members, owner).None?))
  {
    hide Lower, Trim, Deduped, FirstUnder, Ordered, SelfName;
    var owner := Lower(Trim(g.owner));
    var list := Deduped(g.members, {});
    DedupedContents(g.members, {}, x);
    LowerIdempotent(Trim(g.owner));
    DedupedAddress(g.members, owner);
    var all := WithOwner(g, list);
    if all != list {
      forall i, j | 0 <= i < j < |all|
        ensures Lower(all[i].b32) != Lower(all[j].b32)
      {
        assert all[i] == list[i] && list[i] in list;
      }
    }
    SortOrders(all);
  }

  lemma DedupedAddress(list: seq<Member>, addr: string)
    ensures HasAddress(Deduped(list, {}), addr) <==> FirstUnder(list, addr).Some?
  {
    hide Lower, Deduped, FirstUnder;
    FirstHasAddress(list, addr);
    var n := FirstUnder(list, addr);
    if n.Some? {
      DedupedContents(list, {}, n.value);
    }
    forall y | y in Deduped(list, {}) && Lower(y.b32) == addr
      ensures FirstUnder(list, addr).Some?
    {
      DedupedContents(list, {}, y);
    }
  }
}
