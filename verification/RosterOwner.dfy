// The owner's side of a group: what every run of redeeming, renaming, removing,
// inviting and renaming oneself keeps, and why a signed roster rebuilds at the
// receiver to exactly what was signed.
module RosterOwner {
  import opened Basics
  import opened Text
  import opened MemberOrder
  import opened Roster

  // ------------------------------------------------------------ clean values

  lemma LowerIdempotent(s: string)
    ensures Lower(Lower(s)) == Lower(s)
  {
    assert forall i :: 0 <= i < |s| ==> Lower(Lower(s))[i] == Lower(s)[i];
  }

  lemma AddressIsPlain(s: string)
    requires IsB32(s)
    ensures Plain(s) && Lower(s) == s && Trim(s) == s && ValidAddress(s)
  {
    assert s == s[..52] + ".b32.i2p";
    forall i | 0 <= i < |s|
      ensures !IsSpace(s[i]) && LowerChar(s[i]) == s[i]
    {
      if i >= 52 {
        assert s[i] == ".b32.i2p"[i - 52];
      }
    }
    assert Lower(s) == s;
    TrimPlain(s);
  }

  // A normalised address is valid exactly when it is one, as it stands.
  lemma NormalizedAddress(raw: string)
    ensures ValidAddress(Lower(Trim(raw))) <==> IsB32(Lower(Trim(raw)))
  {
    var s := Lower(Trim(raw));
    TrimIsTrimmed(raw);
    TrimIsTrimmed(s);
    LowerIdempotent(Trim(raw));
    hide Lower, Trim;
  }

  predicate CleanName(name: string) {
    name != "" && |name| <= 32 && Trim(name) == name
  }

  predicate CleanMember(m: Member) {
    IsB32(m.b32) && CleanName(m.name)
  }

  predicate AllClean(list: seq<Member>) {
    forall m :: m in list ==> CleanMember(m)
  }

  lemma NormalizeClean(m: Member)
    requires CleanMember(m)
    ensures Normalize(m) == m && ValidAddress(m.b32) && Lower(m.b32) == m.b32
  {
    AddressIsPlain(m.b32);
  }

  lemma ValidNameIsClean(name: string)
    requires ValidName(name)
    ensures CleanName(Trim(name)) && Take(Trim(name), 32) == Trim(name)
  {
    TrimIsTrimmed(name);
    TrimIsTrimmed(Trim(name));
  }

  lemma {:induction false} NormalizeValidClean(list: seq<Member>)
    requires AllClean(list)
    ensures NormalizeValid(list) == list
  {
    if list != [] {
      assert list[0] in list;
      NormalizeClean(list[0]);
      NormalizeValidClean(list[1..]);
      assert list == [list[0]] + list[1..];
    }
  }

  lemma {:induction false} DedupedClean(list: seq<Member>, seen: set<string>)
    requires AllClean(list) && DistinctAddresses(list)
    requires forall m :: m in list ==> Lower(m.b32) !in seen
    ensures Deduped(list, seen) == list
  {
    if list != [] {
      assert list[0] in list;
      NormalizeClean(list[0]);
      DedupedClean(list[1..], seen + {Lower(list[0].b32)});
      assert list == [list[0]] + list[1..];
    }
  }

  // -------------------------------------------------------- owner invariant

  function Me(g: Group): Member {
    Member(SelfName(g), g.my)
  }

  ghost predicate CleanRecord(g: Group) {
    && IsB32(g.my) && g.owner == g.my
    && g.version >= 1
    && Trim(g.name) != ""
    && (g.myName == "" || CleanName(g.myName))
    && AllClean(g.members) && Ordered(g.members) && NewAddress(Me(g), g.members)
    && (forall i :: i in g.invites ==> Lower(i.redeemed) == i.redeemed)
  }

  ghost predicate SignedNow(g: Group) {
    g.secret.Some? && g.pubkey == g.secret && g.signature == Some(Signature(g.secret.value, PayloadOf(g)))
  }

  ghost predicate OwnerInv(g: Group) {
    CleanRecord(g) && SignedNow(g)
  }

  lemma ShortIsPlain(b32: string)
    requires Plain(b32) && b32 != ""
    ensures Plain(ShortB32(b32)) && |ShortB32(b32)| <= 8
  {
    assert forall c :: c in UpTo(b32, '.') ==> c in b32;
  }

  lemma DefaultNameIsClean(b32: string)
    requires Plain(b32) && b32 != ""
    ensures CleanName("member-" + ShortB32(b32))
  {
    ShortIsPlain(b32);
    assert Plain("member-");
    TrimPlain("member-" + ShortB32(b32));
  }

  lemma MeIsClean(g: Group)
    requires CleanRecord(g)
    ensures CleanMember(Me(g))
  {
    AddressIsPlain(g.my);
    if g.myName == "" {
      DefaultNameIsClean(g.my);
    }
  }

  lemma OwnerIsAdded(g: Group)
    requires CleanRecord(g)
    ensures WithOwner(g, Deduped(g.members, {})) == g.members + [Me(g)]
  {
    AddressIsPlain(g.my);
    OrderedIsDistinct(g.members);
    DedupedClean(g.members, {});
    assert forall m :: m in g.members ==> Lower(m.b32) != Lower(Me(g).b32);
  }

  lemma SortOfOneMore(list: seq<Member>, m: Member)
    requires Ordered(list)
    ensures Sort(list + [m]) == Insert(m, list)
  {
    SortOfOrdered(list);
    assert (list + [m])[..|list|] == list;
  }

  // The canonical list is the member list with the owner in place.
  lemma CanonicalOfClean(g: Group)
    requires CleanRecord(g)
    ensures Canonical(g) == Insert(Me(g), g.members)
    ensures Ordered(Canonical(g)) && AllClean(Canonical(g))
    ensures forall x :: x in Canonical(g) <==> x == Me(g) || x in g.members
  {
    OwnerIsAdded(g);
    SortOfOneMore(g.members, Me(g));
    MeIsClean(g);
    InsertOrdered(Me(g), g.members);
  }

  lemma SignMakesCurrent(g: Group, spare: nat)
    requires CleanRecord(g) && (g.secret.Some? ==> g.pubkey == g.secret)
    ensures OwnerInv(SignIfAdmin(g, spare))
    ensures SignIfAdmin(g, spare).members == g.members && SignIfAdmin(g, spare).version == g.version
    ensures SelfName(SignIfAdmin(g, spare)) == SelfName(g) && SignIfAdmin(g, spare).invites == g.invites
    ensures g.secret.Some? ==> SignIfAdmin(g, spare).pubkey == g.pubkey
    ensures SignIfAdmin(g, spare).owner == g.owner
  {
  }

  lemma ReplaceKeepsOrder(list: seq<Member>, i: nat, n: Member)
    requires Ordered(list) && i < |list| && Lower(list[i].b32) == Lower(n.b32)
    ensures Ordered(list[i := n])
    ensures forall m: Member :: NewAddress(m, list) ==> NewAddress(m, list[i := n])
    ensures AllClean(list) && CleanMember(n) ==> AllClean(list[i := n])
  {
    var after := list[i := n];
    assert forall j :: 0 <= j < |after| ==> Lower(after[j].b32) == Lower(list[j].b32);
    forall m: Member | NewAddress(m, list)
      ensures NewAddress(m, after)
    {
      assert list[i] in list;
      assert forall x :: x in after ==> x == n || x in list;
    }
  }

  lemma AppendKeepsOrder(list: seq<Member>, n: Member)
    requires Ordered(list) && NewAddress(n, list)
    ensures Ordered(Sort(list + [n]))
    ensures forall x :: x in Sort(list + [n]) <==> x == n || x in list
  {
    SortOfOneMore(list, n);
    InsertOrdered(n, list);
  }

  lemma NotFoundIsNew(list: seq<Member>, n: Member)
    requires Position(list, Lower(n.b32)) == |list|
    ensures NewAddress(n, list)
  {
    forall x | x in list
      ensures Lower(x.b32) != Lower(n.b32)
    {
      var j :| 0 <= j < |list| && list[j] == x;
    }
  }

  lemma MergeCleanKeepsClean(g: Group, n: Member)
    requires CleanRecord(g) && CleanMember(n)
    ensures var list := MergeMember(g.my, g.members, n);
            AllClean(list) && Ordered(list) && NewAddress(Me(g), list)
  {
    NormalizeClean(n);
    AddressIsPlain(g.my);
    if n.b32 != g.my {
      var i := Position(g.members, n.b32);
      if i == |g.members| {
        NotFoundIsNew(g.members, n);
        AppendKeepsOrder(g.members, n);
      } else {
        ReplaceKeepsOrder(g.members, i, n);
      }
    }
  }

  lemma MergeKeepsClean(g: Group, n: Member, raw: string)
    requires CleanRecord(g) && CleanName(n.name) && n.b32 == Lower(Trim(raw))
    ensures var list := MergeMember(g.my, g.members, n);
            AllClean(list) && Ordered(list) && NewAddress(Me(g), list)
  {
    NormalizedAddress(raw);
    if IsB32(n.b32) {
      MergeCleanKeepsClean(g, n);
    } else {
      InvalidStaysInvalid(raw);
    }
  }

  lemma InvalidStaysInvalid(raw: string)
    requires !IsB32(Lower(Trim(raw)))
    ensures !ValidAddress(Lower(Trim(Lower(Trim(raw)))))
  {
    var s := Lower(Trim(raw));
    TrimIsTrimmed(raw);
    TrimIsTrimmed(s);
    LowerIdempotent(Trim(raw));
    assert Lower(Trim(s)) == s;
  }

  lemma {:induction false} WithoutKeepsClean(list: seq<Member>, addr: string)
    requires Ordered(list)
    ensures Ordered(Without(list, addr))
    ensures forall m :: m in Without(list, addr) <==> m in list && Lower(m.b32) != addr
    ensures |Without(list, addr)| <= |list|
  {
    if list != [] {
      WithoutKeepsClean(list[1..], addr);
      var rest := Without(list[1..], addr);
      assert forall m :: m in list <==> m == list[0] || m in list[1..];
      forall m | m in rest
        ensures LexLess(Lower(list[0].b32), Lower(m.b32))
      {
        var j :| 0 <= j < |list[1..]| && list[1..][j] == m;
        assert list[j + 1] == m;
      }
    }
  }

  // A new group once its owner opened it: open_group gives it the owner's address
  // and the first signature.
  function Opened(name: string, myName: string, my: string, spare: nat): Group {
    SignIfAdmin(Group(Trim(name), my, Trim(myName), my, 1, [], None, [], None, None, None), spare)
  }

  lemma OpenedIsOwner(name: string, myName: string, my: string, spare: nat)
    requires Trim(name) != "" && IsB32(my) && (myName == "" || ValidName(myName))
    ensures OwnerInv(Opened(name, myName, my, spare))
  {
    TrimIsTrimmed(name);
    TrimIsTrimmed(Trim(name));
    if myName != "" {
      ValidNameIsClean(myName);
    }
    SignMakesCurrent(Group(Trim(name), my, Trim(myName), my, 1, [], None, [], None, None, None), spare);
  }

  // ------------------------------------------------------------ owner's state

  // Every member entry is an object of its own: a rename writes into the entry, a
  // redemption puts a new one in its place, and a removal under way keeps a list
  // of the very entries that will remain. Entries are numbered in the order they
  // were made; group.members is what the entries listed in ids read as.
  datatype Owner = Owner(group: Group, entries: seq<Member>, ids: seq<nat>, pending: map<nat, seq<nat>>)

  function Read(entries: seq<Member>, id: nat): Member {
    if id < |entries| then entries[id] else Member("", "")
  }

  function ReadAll(entries: seq<Member>, ids: seq<nat>): (list: seq<Member>)
    ensures |list| == |ids|
    ensures forall i :: 0 <= i < |ids| ==> list[i] == Read(entries, ids[i])
  {
    if ids == [] then [] else [Read(entries, ids[0])] + ReadAll(entries, ids[1..])
  }

  function Write(entries: seq<Member>, id: nat, m: Member): (after: seq<Member>)
    ensures |after| == |entries|
  {
    if id < |entries| then entries[id := m] else entries
  }

  // merge_group_member on the entries: the list is in order, so its sort only
  // moves a new entry to its place.
  function MergeEntry(o: Owner, m: Member): Owner {
    var (list, n) := (o.group.members, Normalize(m));
    if MergeMember(o.group.my, list, m) == list then o
    else
      var i := Position(list, Lower(n.b32));
      var k := InsertPlace(n, list);
      var id := |o.entries|;
      o.(entries := o.entries + [n],
      ids := if i < |list| then Replaced(o.ids, i, id) else Inserted(o.ids, k, id))
  }

  function Replaced(ids: seq<nat>, i: nat, id: nat): seq<nat> {
    if i < |ids| then ids[i := id] else ids
  }

  function Inserted(ids: seq<nat>, k: nat, id: nat): seq<nat> {
    if k <= |ids| then ids[..k] + [id] + ids[k..] else ids + [id]
  }

  // The entries whose address is another.
  function KeepIds(entries: seq<Member>, ids: seq<nat>, addr: string): seq<nat> {
    if ids == [] then []
    else if Lower(Read(entries, ids[0]).b32) == addr then KeepIds(entries, ids[1..], addr)
    else [ids[0]] + KeepIds(entries, ids[1..], addr)
  }

  // The entry a rename writes into.
  function RenamedEntry(o: Owner, b32: string): nat {
    var i := Position(o.group.members, Lower(Trim(b32)));
    if i < |o.ids| then o.ids[i] else |o.entries|
  }

  // ------------------------------------------------------------- owner runs

  // Issuing an invite for a stored group reads the group back from its file, so
  // all its entries are new ones.
  datatype Op =
    | DoRedeem(token: string, member: Member)
    | DoRename(b32: string, name: string)
    | DoStartRemove(removal: nat, address: string)
    | DoFinishRemove(removal: nat)
    | DoIssue(newToken: string, reloaded: bool)
    | DoSetOwnName(ownName: string)

  // A refused operation leaves everything alone.
  function After(o: Owner, op: Op): Owner {
    match op
    case DoRedeem(token, member) =>
      (match Redeem(o.group, token, member, 0)
       case Err(_) => o
       case Ok(g) => MergeEntry(o, Normalize(member)).(group := g))
    case DoRename(b32, name) =>
      (match Rename(o.group, b32, name, 0)
       case Err(_) => o
       case Ok(g) =>
         var id := RenamedEntry(o, b32);
         o.(group := g, entries := Write(o.entries, id, Read(o.entries, id).(name := Trim(name)))))
    case DoStartRemove(removal, address) =>
      if removal in o.pending || StartRemove(o.group, address).Err? then o
      else o.(pending := o.pending[removal := KeepIds(o.entries, o.ids, Lower(Trim(address)))])
    case DoFinishRemove(removal) =>
      if removal !in o.pending then o
      else
        var ids := o.pending[removal];
        o.(group := FinishRemove(o.group, ReadAll(o.entries, ids), 0), ids := ids, pending := o.pending - {removal})
    case DoIssue(token, reloaded) =>
      (match Issue(o.group, token, 0)
       case Err(_) => o
       case Ok(g) => (if reloaded then Reloaded(o) else o).(group := g))
    case DoSetOwnName(name) =>
      (match SetOwnName(o.group, name, 0)
       case Err(_) => o
       case Ok(g) => o.(group := g))
  }

  function Reloaded(o: Owner): Owner {
    o.(entries := o.entries + o.group.members, ids := NumbersFrom(|o.entries|, |o.group.members|))
  }

  function NumbersFrom(n: nat, count: nat): (ids: seq<nat>)
    decreases count
    ensures |ids| == count && forall i :: 0 <= i < count ==> ids[i] == n + i
  {
    if count == 0 then [] else [n] + NumbersFrom(n + 1, count - 1)
  }

  ghost predicate TokensKept(before: seq<Invite>, after: seq<Invite>) {
    && |before| <= |after|
    && forall k :: 0 <= k < |before| ==>
         after[k].token == before[k].token
         && (before[k].redeemed != "" ==> after[k].redeemed == before[k].redeemed)
  }

  // What one operation may change.
  ghost predicate StepOk(g: Group, g': Group) {
    && OwnerInv(g')
    && g'.version >= g.version
    && (g'.version == g.version ==> g'.members == g.members)
    && TokensKept(g.invites, g'.invites)
    && g'.pubkey == g.pubkey && g'.owner == g.owner && g'.name == g.name
  }

  // The record with the token marked as redeemed by an address.
  function Marked(g: Group, i: nat, b32: string): Group
    requires i < |g.invites|
  {
    g.(invites := g.invites[i := g.invites[i].(redeemed := b32)])
  }

  lemma MarkKeeps(g: Group, i: nat, b32: string)
    requires OwnerInv(g) && i < |g.invites| && Lower(b32) == b32
    requires g.invites[i].redeemed != "" ==> Lower(g.invites[i].redeemed) == Lower(b32)
    ensures CleanRecord(Marked(g, i, b32)) && TokensKept(g.invites, Marked(g, i, b32).invites)
  {
    hide IsB32, Canonical, CleanName, Ordered, AllClean, NewAddress, Lower;
    assert g.invites[i] in g.invites;
    assert forall v :: v in Marked(g, i, b32).invites ==> v in g.invites || v.redeemed == b32;
    assert SelfName(Marked(g, i, b32)) == SelfName(g);
  }

  lemma WithMembersKeeps(g: Group, members: seq<Member>)
    requires CleanRecord(g)
    requires AllClean(members) && Ordered(members) && NewAddress(Me(g), members)
    ensures CleanRecord(WithMembers(g, members))
  {
    assert SelfName(WithMembers(g, members)) == SelfName(g);
  }

  lemma RedeemKeeps(g: Group, token: string, m: Member)
    requires OwnerInv(g) && Redeem(g, token, m, 0).Ok?
    ensures StepOk(g, Redeem(g, token, m, 0).value)
  {
    hide IsB32, Canonical, CleanName, Ordered, MergeMember;
    var n := Normalize(m);
    ValidNameIsClean(m.name);
    LowerIdempotent(Trim(m.b32));
    var i := TokenPosition(g.invites, token);
    MarkKeeps(g, i, n.b32);
    var g1 := Marked(g, i, n.b32);
    MergeKeepsClean(g1, n, m.b32);
    var members := MergeMember(g1.my, g1.members, n);
    WithMembersKeeps(g1, members);
    SignMakesCurrent(WithMembers(g1, members), 0);
  }

  lemma RenameKeeps(g: Group, b32: string, name: string)
    requires OwnerInv(g) && Rename(g, b32, name, 0).Ok?
    ensures StepOk(g, Rename(g, b32, name, 0).value)
  {
    hide CleanRecord, SignedNow, StepOk, CleanName, SignIfAdmin, WithMembers, Rename;
    var h := Rename(g, b32, name, 0).value;
    var i := RenamedGroup(g, b32, name);
    if h == g {
      StandingStep(g);
    } else {
      RenamedIsClean(g, i, Trim(name));
      SignedChange(g, g.members[i := g.members[i].(name := Trim(name))]);
    }
  }

  // What a rename leaves: the record as it was, or the new list with its signature.
  lemma RenamedGroup(g: Group, b32: string, name: string) returns (i: nat)
    requires Rename(g, b32, name, 0).Ok?
    ensures CleanName(Trim(name))
    ensures i == Position(g.members, Lower(Trim(b32))) < |g.members|
    ensures var (h, list) := (Rename(g, b32, name, 0).value, g.members[i := g.members[i].(name := Trim(name))]);
            h.members == list && (h == g || (g.members[i].name != Trim(name) && h == SignIfAdmin(WithMembers(g, list), 0)))
  {
    hide Lower, Trim, ValidName, ValidAddress, Canonical, CleanName, Position;
    ValidNameIsClean(name);
    i := Position(g.members, Lower(Trim(b32)));
  }

  lemma StandingStep(g: Group)
    requires OwnerInv(g)
    ensures StepOk(g, g)
  {
    hide CleanRecord, SignedNow;
  }

  lemma SignKeeps(g: Group, spare: nat)
    ensures SignIfAdmin(g, spare).name == g.name
  {
    hide Canonical;
  }

  lemma SignedChange(g: Group, list: seq<Member>)
    requires OwnerInv(g) && list != g.members && CleanRecord(WithMembers(g, list))
    ensures StepOk(g, SignIfAdmin(WithMembers(g, list), 0))
  {
    hide SignIfAdmin, AllClean, Ordered, NewAddress, IsB32, CleanName, Trim, Lower, SelfName;
    SignMakesCurrent(WithMembers(g, list), 0);
    SignKeeps(WithMembers(g, list), 0);
  }

  lemma RenamedIsClean(g: Group, i: nat, name: string)
    requires CleanRecord(g) && i < |g.members| && CleanName(name) && g.members[i].name != name
    ensures var list := g.members[i := g.members[i].(name := name)];
            list != g.members && CleanRecord(WithMembers(g, list))
  {
    hide IsB32, CleanName, Ordered;
    var renamed := g.members[i].(name := name);
    assert g.members[i] in g.members;
    ReplaceKeepsOrder(g.members, i, renamed);
    WithMembersKeeps(g, g.members[i := renamed]);
    assert g.members[i := renamed][i] == renamed;
  }

  // A list the record may hold.
  ghost predicate CleanList(g: Group, list: seq<Member>) {
    AllClean(list) && Ordered(list) && NewAddress(Me(g), list)
  }

  lemma FinishRemoveKeeps(g: Group, remaining: seq<Member>)
    requires OwnerInv(g) && CleanList(g, remaining)
    ensures StepOk(g, FinishRemove(g, remaining, 0))
  {
    hide IsB32, Canonical, CleanName, Ordered;
    var h := g.(members := remaining, version := OrOne(g.version) + 1);
    assert SelfName(h) == SelfName(g);
    SignMakesCurrent(h, 0);
  }

  lemma IssueKeeps(g: Group, token: string)
    requires OwnerInv(g) && Issue(g, token, 0).Ok?
    ensures StepOk(g, Issue(g, token, 0).value)
  {
    SignMakesCurrent(g, 0);
    assert forall i :: i in Issue(g, token, 0).value.invites ==> i in g.invites || i.redeemed == "";
  }

  lemma SetOwnNameKeeps(g: Group, name: string)
    requires OwnerInv(g) && SetOwnName(g, name, 0).Ok?
    ensures StepOk(g, SetOwnName(g, name, 0).value)
  {
    ValidNameIsClean(name);
    var g1 := g.(myName := Trim(name));
    assert Me(g1).b32 == Me(g).b32;
    SignMakesCurrent(g1, 0);
  }

  // --------------------------------------------------------------- invariant

  ghost predicate Entries(entries: seq<Member>, ids: seq<nat>) {
    && (forall i :: 0 <= i < |ids| ==> ids[i] < |entries|)
    && (forall i, j :: 0 <= i < j < |ids| ==> ids[i] != ids[j])
  }

  ghost predicate Inv(o: Owner) {
    && OwnerInv(o.group)
    && Entries(o.entries, o.ids) && ReadAll(o.entries, o.ids) == o.group.members
    && forall p :: p in o.pending ==>
         Entries(o.entries, o.pending[p]) && CleanList(o.group, ReadAll(o.entries, o.pending[p]))
  }

  // A fresh owner: every member has an entry of its own and no removal is under way.
  function Opening(g: Group): Owner {
    Owner(g, g.members, NumbersFrom(0, |g.members|), map[])
  }

  lemma OpeningInv(g: Group)
    requires OwnerInv(g)
    ensures Inv(Opening(g))
  {
    hide OwnerInv;
    assert ReadAll(g.members, NumbersFrom(0, |g.members|)) == g.members;
  }

  lemma ReadAllOfMore(entries: seq<Member>, more: seq<Member>, ids: seq<nat>)
    requires Entries(entries, ids)
    ensures Entries(entries + more, ids) && ReadAll(entries + more, ids) == ReadAll(entries, ids)
  {
  }

  lemma ReplacedReads(entries: seq<Member>, ids: seq<nat>, i: nat, m: Member)
    requires Entries(entries, ids) && i < |ids|
    ensures var (all, now) := (entries + [m], Replaced(ids, i, |entries|));
            Entries(all, now) && ReadAll(all, now) == ReadAll(entries, ids)[i := m]
  {
  }

  lemma {:induction false} ReadAllOfParts(entries: seq<Member>, a: seq<nat>, b: seq<nat>)
    ensures ReadAll(entries, a + b) == ReadAll(entries, a) + ReadAll(entries, b)
  {
    hide Read;
    if a == [] {
      assert a + b == b;
    } else {
      assert (a + b)[0] == a[0] && (a + b)[1..] == a[1..] + b;
      ReadAllOfParts(entries, a[1..], b);
    }
  }

  lemma InsertedIsEntries(entries: seq<Member>, ids: seq<nat>, k: nat, m: Member)
    requires Entries(entries, ids) && k <= |ids|
    ensures Entries(entries + [m], Inserted(ids, k, |entries|))
  {
    var now := Inserted(ids, k, |entries|);
    assert forall i :: 0 <= i < |now| ==> now[i] == if i < k then ids[i] else if i == k then |entries| else ids[i - 1];
  }

  lemma InsertedReads(entries: seq<Member>, ids: seq<nat>, k: nat, m: Member)
    requires Entries(entries, ids) && k <= |ids|
    ensures var (all, now, list) := (entries + [m], Inserted(ids, k, |entries|), ReadAll(entries, ids));
            Entries(all, now) && ReadAll(all, now) == list[..k] + [m] + list[k..]
  {
    hide ReadAll, Read, Entries;
    var (all, front, back) := (entries + [m], ids[..k], ids[k..]);
    InsertedIsEntries(entries, ids, k, m);
    ReadAllOfMore(entries, [m], ids);
    ReadAllOfParts(all, front + [|entries|], back);
    ReadAllOfParts(all, front, [|entries|]);
    ReadAllOfParts(all, front, back);
    assert front + back == ids;
    SingleRead(all, |entries|);
    NewEntryReads(entries, m);
    Parts(ReadAll(all, front), ReadAll(all, back));
  }

  lemma NewEntryReads(entries: seq<Member>, m: Member)
    ensures Read(entries + [m], |entries|) == m
  {
  }

  lemma Parts(a: seq<Member>, b: seq<Member>)
    ensures (a + b)[..|a|] == a && (a + b)[|a|..] == b
  {
  }

  lemma SingleRead(entries: seq<Member>, id: nat)
    ensures ReadAll(entries, [id]) == [Read(entries, id)]
  {
  }

  lemma WrittenReads(entries: seq<Member>, ids: seq<nat>, i: nat, m: Member)
    requires Entries(entries, ids) && i < |ids|
    ensures ReadAll(Write(entries, ids[i], m), ids) == ReadAll(entries, ids)[i := m]
  {
  }

  lemma {:induction false} KeptAreEntries(entries: seq<Member>, ids: seq<nat>, addr: string)
    requires Entries(entries, ids)
    ensures Entries(entries, KeepIds(entries, ids, addr))
    ensures forall id :: id in KeepIds(entries, ids, addr) ==> id in ids
  {
    hide Lower;
    if ids != [] {
      KeptAreEntries(entries, ids[1..], addr);
      assert ids[0] !in ids[1..];
    }
  }

  lemma {:induction false} KeptReads(entries: seq<Member>, ids: seq<nat>, addr: string)
    ensures ReadAll(entries, KeepIds(entries, ids, addr)) == Without(ReadAll(entries, ids), addr)
  {
    hide Lower;
    if ids != [] {
      KeptReads(entries, ids[1..], addr);
      var rest := KeepIds(entries, ids[1..], addr);
      assert ([ids[0]] + rest)[1..] == rest;
      var list := ReadAll(entries, ids);
      assert list[0] == Read(entries, ids[0]) && list[1..] == ReadAll(entries, ids[1..]);
    }
  }

  // ------------------------------------------------------- what a step keeps

  // The pending lists stay usable when nobody's address changes.
  lemma PendingStaysClean(g: Group, h: Group, entries: seq<Member>, more: seq<Member>, ids: seq<nat>)
    requires Me(g).b32 == Me(h).b32
    requires Entries(entries, ids) && CleanList(g, ReadAll(entries, ids))
    ensures Entries(entries + more, ids) && CleanList(h, ReadAll(entries + more, ids))
  {
    ReadAllOfMore(entries, more, ids);
  }

  lemma MergedReads(o: Owner, m: Member)
    requires Inv(o)
    ensures var t := MergeEntry(o, m);
            && Entries(t.entries, t.ids)
            && ReadAll(t.entries, t.ids) == MergeMember(o.group.my, o.group.members, m)
            && o.entries <= t.entries && t.pending == o.pending
  {
    hide Lower, ValidAddress, Normalize, IsB32, CleanName, LexLess, ReadAll, Entries, CleanList, SignedNow;
    var (list, n) := (o.group.members, Normalize(m));
    if MergeMember(o.group.my, list, m) != list {
      var i := Position(list, Lower(n.b32));
      if i < |list| {
        ReplacedReads(o.entries, o.ids, i, n);
      } else {
        InsertedReads(o.entries, o.ids, InsertPlace(n, list), n);
        SortOfOneMore(list, n);
        InsertAtPlace(n, list);
      }
    }
  }

  lemma OwnerAfter(g: Group, h: Group)
    requires OwnerInv(g) && StepOk(g, h)
    ensures OwnerInv(h) && Me(h).b32 == Me(g).b32
  {
  }

  lemma RedeemedMembers(g: Group, token: string, m: Member)
    requires Redeem(g, token, m, 0).Ok?
    ensures Redeem(g, token, m, 0).value.members == MergeMember(g.my, g.members, Normalize(m))
  {
    hide Normalize, Lower, ValidName, Canonical, MergeMember;
  }

  lemma RedeemStepKeeps(o: Owner, token: string, m: Member)
    requires Inv(o) && Redeem(o.group, token, m, 0).Ok?
    ensures Inv(After(o, DoRedeem(token, m))) && StepOk(o.group, After(o, DoRedeem(token, m)).group)
  {
    hide OwnerInv, MergeEntry, StepOk, Entries, CleanList, Redeem, ReadAll;
    var h := Redeem(o.group, token, m, 0).value;
    var t := MergeEntry(o, Normalize(m));
    RedeemKeeps(o.group, token, m);
    MergedReads(o, Normalize(m));
    RedeemedMembers(o.group, token, m);
    OwnerAfter(o.group, h);
    assert t.entries == o.entries + t.entries[|o.entries|..];
    forall p | p in o.pending
      ensures Entries(t.entries, o.pending[p]) && CleanList(h, ReadAll(t.entries, o.pending[p]))
    {
      PendingStaysClean(o.group, h, o.entries, t.entries[|o.entries|..], o.pending[p]);
    }
  }

  // A rename leaves every list in order, and its entry clean.
  lemma RenamedList(g: Group, h: Group, entries: seq<Member>, ids: seq<nat>, id: nat, name: string)
    requires Me(g).b32 == Me(h).b32 && CleanName(name)
    requires Entries(entries, ids) && CleanList(g, ReadAll(entries, ids))
    ensures var after := Write(entries, id, Read(entries, id).(name := name));
            Entries(after, ids) && CleanList(h, ReadAll(after, ids))
  {
    hide CleanName, IsB32, CleanList, ReadAll, Lower;
    var list := ReadAll(entries, ids);
    SameAddressList(g, h, list);
    var after := Write(entries, id, Read(entries, id).(name := name));
    if id in ids && id < |entries| {
      var i :| 0 <= i < |ids| && ids[i] == id;
      WrittenReads(entries, ids, i, Read(entries, id).(name := name));
      RenamedIsCleanList(h, list, i, name);
    } else {
      assert forall i :: 0 <= i < |ids| ==> ids[i] in ids && Read(after, ids[i]) == Read(entries, ids[i]);
      assert ReadAll(after, ids) == list;
    }
  }

  lemma SameAddressList(g: Group, h: Group, list: seq<Member>)
    requires Me(g).b32 == Me(h).b32 && CleanList(g, list)
    ensures CleanList(h, list)
  {
  }

  lemma RenamedIsCleanList(g: Group, list: seq<Member>, i: nat, name: string)
    requires CleanList(g, list) && i < |list| && CleanName(name)
    ensures CleanList(g, list[i := list[i].(name := name)])
  {
    hide CleanName, IsB32, Ordered, NewAddress;
    assert list[i] in list;
    ReplaceKeepsOrder(list, i, list[i].(name := name));
  }

  lemma RenamedMembers(o: Owner, b32: string, name: string)
    requires Inv(o) && Rename(o.group, b32, name, 0).Ok?
    ensures RenamedEntry(o, b32) in o.ids
    ensures var id := RenamedEntry(o, b32);
            ReadAll(Write(o.entries, id, Read(o.entries, id).(name := Trim(name))), o.ids)
            == Rename(o.group, b32, name, 0).value.members
  {
    hide Lower, Trim, Rename, OwnerInv, CleanList, Entries, Write, ReadAll, CleanName;
    var i := RenamedGroup(o.group, b32, name);
    WrittenReads(o.entries, o.ids, i, Read(o.entries, o.ids[i]).(name := Trim(name)));
  }

  lemma RenameStepKeeps(o: Owner, b32: string, name: string)
    requires Inv(o) && Rename(o.group, b32, name, 0).Ok?
    ensures Inv(After(o, DoRename(b32, name))) && StepOk(o.group, After(o, DoRename(b32, name)).group)
  {
    hide OwnerInv, StepOk, Entries, CleanList, Rename, RenamedEntry, Write, Read, ReadAll, CleanName, Trim;
    var h := Rename(o.group, b32, name, 0).value;
    var id := RenamedEntry(o, b32);
    var after := Write(o.entries, id, Read(o.entries, id).(name := Trim(name)));
    RenameKeeps(o.group, b32, name);
    RenamedNameIsClean(o.group, b32, name);
    OwnerAfter(o.group, h);
    RenamedMembers(o, b32, name);
    SameLength(o.entries, after, o.ids);
    forall p | p in o.pending
      ensures Entries(after, o.pending[p]) && CleanList(h, ReadAll(after, o.pending[p]))
    {
      RenamedList(o.group, h, o.entries, o.pending[p], id, Trim(name));
    }
  }

  lemma RenamedNameIsClean(g: Group, b32: string, name: string)
    requires Rename(g, b32, name, 0).Ok?
    ensures CleanName(Trim(name))
  {
    ValidNameIsClean(name);
  }

  lemma SameLength(entries: seq<Member>, after: seq<Member>, ids: seq<nat>)
    requires |after| == |entries| && Entries(entries, ids)
    ensures Entries(after, ids)
  {
  }

  lemma StartStepKeeps(o: Owner, removal: nat, address: string)
    requires Inv(o) && removal !in o.pending && StartRemove(o.group, address).Ok?
    ensures Inv(After(o, DoStartRemove(removal, address))) && After(o, DoStartRemove(removal, address)).group == o.group
  {
    hide OwnerInv, Entries, StartRemove, KeepIds, ReadAll, IsB32, CleanName;
    KeptAreEntries(o.entries, o.ids, Lower(Trim(address)));
    KeptReads(o.entries, o.ids, Lower(Trim(address)));
    RecordIsClean(o.group);
    WithoutKeepsClean(o.group.members, Lower(Trim(address)));
  }

  lemma RecordIsClean(g: Group)
    requires OwnerInv(g)
    ensures CleanList(g, g.members) && StepOk(g, g)
  {
  }

  lemma FinishStepKeeps(o: Owner, removal: nat)
    requires Inv(o) && removal in o.pending
    ensures Inv(After(o, DoFinishRemove(removal))) && StepOk(o.group, After(o, DoFinishRemove(removal)).group)
  {
    hide OwnerInv, Entries, StepOk, CleanList, ReadAll, FinishRemove;
    var remaining := ReadAll(o.entries, o.pending[removal]);
    var h := FinishRemove(o.group, remaining, 0);
    FinishRemoveKeeps(o.group, remaining);
    OwnerAfter(o.group, h);
    FinishedMembers(o.group, remaining);
    forall p | p in o.pending
      ensures CleanList(h, ReadAll(o.entries, o.pending[p]))
    {
      PendingStaysClean(o.group, h, o.entries, [], o.pending[p]);
      assert o.entries + [] == o.entries;
    }
  }

  lemma FinishedMembers(g: Group, remaining: seq<Member>)
    ensures FinishRemove(g, remaining, 0).members == remaining
  {
  }

  lemma ReloadedReads(o: Owner)
    requires Inv(o)
    ensures var t := Reloaded(o);
            Entries(t.entries, t.ids) && ReadAll(t.entries, t.ids) == o.group.members
  {
    hide OwnerInv, CleanList;
  }

  // What changes nothing but the record leaves the entries as they are.
  lemma RecordStepKeeps(o: Owner, h: Group, more: seq<Member>, ids: seq<nat>)
    requires Inv(o) && StepOk(o.group, h)
    requires Entries(o.entries + more, ids) && ReadAll(o.entries + more, ids) == h.members
    ensures Inv(o.(group := h, entries := o.entries + more, ids := ids))
  {
    hide OwnerInv, Entries, StepOk, CleanList, ReadAll;
    OwnerAfter(o.group, h);
    forall p | p in o.pending
      ensures Entries(o.entries + more, o.pending[p]) && CleanList(h, ReadAll(o.entries + more, o.pending[p]))
    {
      PendingStaysClean(o.group, h, o.entries, more, o.pending[p]);
    }
  }

  lemma IssueStepKeeps(o: Owner, token: string, reloaded: bool)
    requires Inv(o) && Issue(o.group, token, 0).Ok?
    ensures Inv(After(o, DoIssue(token, reloaded))) && StepOk(o.group, After(o, DoIssue(token, reloaded)).group)
  {
    hide OwnerInv, Entries, StepOk, CleanList, ReadAll, Issue;
    var h := Issue(o.group, token, 0).value;
    IssueKeeps(o.group, token);
    IssuedMembers(o.group, token);
    if reloaded {
      ReloadedReads(o);
      RecordStepKeeps(o, h, o.group.members, Reloaded(o).ids);
    } else {
      assert o.entries + [] == o.entries;
      RecordStepKeeps(o, h, [], o.ids);
    }
  }

  lemma IssuedMembers(g: Group, token: string)
    requires Issue(g, token, 0).Ok?
    ensures Issue(g, token, 0).value.members == g.members
  {
  }

  lemma SetOwnNameStepKeeps(o: Owner, name: string)
    requires Inv(o) && SetOwnName(o.group, name, 0).Ok?
    ensures Inv(After(o, DoSetOwnName(name))) && StepOk(o.group, After(o, DoSetOwnName(name)).group)
  {
    hide OwnerInv, Entries, StepOk, CleanList, ReadAll, SetOwnName;
    SetOwnNameKeeps(o.group, name);
    OwnNameMembers(o.group, name);
    assert o.entries + [] == o.entries;
    RecordStepKeeps(o, SetOwnName(o.group, name, 0).value, [], o.ids);
  }

  lemma OwnNameMembers(g: Group, name: string)
    requires SetOwnName(g, name, 0).Ok?
    ensures SetOwnName(g, name, 0).value.members == g.members
  {
  }

  lemma OpKeeps(o: Owner, op: Op)
    requires Inv(o)
    ensures Inv(After(o, op)) && StepOk(o.group, After(o, op).group)
  {
    hide Inv, OwnerInv, StepOk, Redeem, Rename, StartRemove, FinishRemove, Issue, SetOwnName, MergeEntry;
    if After(o, op) == o {
      GroupStays(o);
    } else {
      match op
      case DoRedeem(token, member) => RedeemStepKeeps(o, token, member);
      case DoRename(b32, name) => RenameStepKeeps(o, b32, name);
      case DoStartRemove(removal, address) => StartStepKeeps(o, removal, address); GroupStays(o);
      case DoFinishRemove(removal) => FinishStepKeeps(o, removal);
      case DoIssue(token, reloaded) => IssueStepKeeps(o, token, reloaded);
      case DoSetOwnName(name) => SetOwnNameStepKeeps(o, name);
    }
  }

  lemma GroupStays(o: Owner)
    requires Inv(o)
    ensures StepOk(o.group, o.group)
  {
    RecordIsClean(o.group);
  }

  // The states of an owner's run, the first one included.
  function Run(o: Owner, ops: seq<Op>): (states: seq<Owner>)
    ensures |states| == |ops| + 1 && states[0] == o
    decreases |ops|
  {
    if ops == [] then [o] else [o] + Run(After(o, ops[0]), ops[1..])
  }

  lemma {:induction false} RunSteps(o: Owner, ops: seq<Op>, i: nat)
    requires Inv(o) && i < |ops|
    ensures Inv(Run(o, ops)[i]) && StepOk(Run(o, ops)[i].group, Run(o, ops)[i + 1].group)
    ensures Inv(Run(o, ops)[i + 1])
    decreases i
  {
    hide Inv, StepOk, After;
    OpKeeps(o, ops[0]);
    if i > 0 {
      RunSteps(After(o, ops[0]), ops[1..], i - 1);
    }
  }

  lemma StepsAdd(a: Group, b: Group, c: Group)
    requires StepOk(a, b) && StepOk(b, c)
    ensures StepOk(a, c)
  {
    hide OwnerInv;
  }

  lemma {:induction false} RunKeeps(o: Owner, ops: seq<Op>, i: nat, j: nat)
    requires Inv(o) && i <= j <= |ops|
    ensures Inv(Run(o, ops)[i]) && Inv(Run(o, ops)[j]) && StepOk(Run(o, ops)[i].group, Run(o, ops)[j].group)
    decreases j
  {
    hide Inv, StepOk, Run;
    if i < j {
      RunKeeps(o, ops, i, j - 1);
      RunSteps(o, ops, j - 1);
      StepsAdd(Run(o, ops)[i].group, Run(o, ops)[j - 1].group, Run(o, ops)[j].group);
    } else {
      if j > 0 {
        RunSteps(o, ops, j - 1);
      }
      GroupStays(Run(o, ops)[j]);
    }
  }

  // In any owner's run, equal versions mean equal member lists; the signed lists
  // are equal too exactly if the owner's own display name did not change.
  lemma VersionNamesOneRoster(o: Owner, ops: seq<Op>, i: nat, j: nat)
    requires Inv(o) && i <= j <= |ops|
    ensures var (a, b) := (Run(o, ops)[i].group, Run(o, ops)[j].group);
            && a.version <= b.version
            && (a.version == b.version ==>
                  a.members == b.members && (Canonical(a) == Canonical(b) <==> SelfName(a) == SelfName(b)))
  {
    hide Run, Canonical, Entries, ReadAll;
    RunKeeps(o, ops, i, j);
    SameVersionSameRoster(Run(o, ops)[i].group, Run(o, ops)[j].group);
  }

  lemma SameVersionSameRoster(a: Group, b: Group)
    requires OwnerInv(a) && StepOk(a, b)
    ensures a.version == b.version ==> (Canonical(a) == Canonical(b) <==> SelfName(a) == SelfName(b))
  {
    if a.version == b.version {
      CanonicalOfClean(a);
      CanonicalOfClean(b);
      if Canonical(a) == Canonical(b) {
        assert Me(b) in Canonical(a);
        assert forall m :: m in a.members ==> Lower(m.b32) != Lower(Me(a).b32);
      }
    }
  }

  // A token, once redeemed, stays with the address that redeemed it.
  lemma TokensStayRedeemed(o: Owner, ops: seq<Op>, i: nat, j: nat)
    requires Inv(o) && i <= j <= |ops|
    ensures TokensKept(Run(o, ops)[i].group.invites, Run(o, ops)[j].group.invites)
  {
    hide Run;
    RunKeeps(o, ops, i, j);
  }

  // -------------------------------------------------- what receivers rebuild

  lemma SyncRebuilds(g: Group)
    requires OwnerInv(g)
    ensures SyncOf(g).Ok? && Genuine(SyncOf(g).value)
    ensures NormalizeValid(SyncOf(g).value.members) == Canonical(g)
  {
    hide Canonical, NormalizeValid, Sort, Insert;
    AddressIsPlain(g.my);
    CanonicalOfClean(g);
    NormalizeValidClean(Canonical(g));
    SortOfOrdered(Canonical(g));
  }

  lemma {:induction false} MergeOfDistinct(list: seq<Member>)
    requires AllClean(list) && DistinctAddresses(list)
    ensures MergeFromFront([], list) == Sort(list)
  {
    if list != [] {
      var front, last := list[..|list| - 1], list[|list| - 1];
      assert last in list && list == front + [last];
      MergeOfDistinct(front);
      MergeLast(front, last);
    }
  }

  lemma PositionOfNew(list: seq<Member>, m: Member)
    requires NewAddress(m, list)
    ensures Position(list, Lower(m.b32)) == |list|
  {
    if list != [] {
      assert list[0] in list;
      PositionOfNew(list[1..], m);
    }
  }

  lemma MergeLast(front: seq<Member>, last: Member)
    requires CleanMember(last) && DistinctAddresses(front + [last])
    ensures MergeMember("", Sort(front), last) == Sort(front + [last])
  {
    var list := front + [last];
    assert forall i :: 0 <= i < |front| ==> front[i] == list[i];
    NormalizeClean(last);
    SortOrders(front);
    forall m | m in Sort(front)
      ensures Lower(m.b32) != Lower(last.b32)
    {
      var j :| 0 <= j < |front| && front[j] == m;
      assert list[j] == m && list[|front|] == last;
    }
    PositionOfNew(Sort(front), last);
    SortOfOneMore(Sort(front), last);
    assert list[..|front|] == front;
  }

  // MergeMembers for a record without an own address, member by member from the front.
  function MergeFromFront(list: seq<Member>, incoming: seq<Member>): seq<Member> {
    if incoming == [] then list
    else MergeMember("", MergeFromFront(list, incoming[..|incoming| - 1]), incoming[|incoming| - 1])
  }

  lemma {:induction false} MergeMembersAppend(my: string, list: seq<Member>, incoming: seq<Member>, m: Member)
    ensures MergeMembers(my, list, incoming + [m]) == MergeMember(my, MergeMembers(my, list, incoming), m)
    decreases |incoming|
  {
    if incoming == [] {
      assert incoming + [m] == [m];
    } else {
      assert (incoming + [m])[1..] == incoming[1..] + [m];
      MergeMembersAppend(my, MergeMember(my, list, incoming[0]), incoming[1..], m);
    }
  }

  lemma {:induction false} MergeMembersIsFromFront(list: seq<Member>, incoming: seq<Member>)
    ensures MergeMembers("", list, incoming) == MergeFromFront(list, incoming)
    decreases |incoming|
  {
    hide MergeMember;
    if incoming != [] {
      var front, last := incoming[..|incoming| - 1], incoming[|incoming| - 1];
      assert incoming == front + [last];
      MergeMembersIsFromFront(list, front);
      MergeMembersAppend("", list, front, last);
    }
  }

  lemma InviteMembersRebuild(g: Group, token: string)
    requires OwnerInv(g)
    ensures var incoming := InviteMembers(InviteOf(g, token));
            && incoming == [Me(g)] + g.members
            && AllClean(incoming) && DistinctAddresses(incoming) && Sort(incoming) == Canonical(g)
  {
    hide Canonical, Sort, IsB32, CleanName, Insert;
    var all := [Me(g)] + g.members;
    MeIsClean(g);
    OrderedIsDistinct(g.members);
    NormalizeValidClean(all);
    CanonicalOfClean(g);
    assert forall j :: 0 < j < |all| ==> all[j] in g.members;
    SortOrders(all);
    OrderedUnique(Sort(all), Canonical(g));
  }

  lemma InviteVerifies(g: Group, token: string)
    requires OwnerInv(g)
    ensures var i := InviteOf(g, token);
            && Trim(i.groupName) != "" && ValidAddress(i.inviter) && ValidAddress(Lower(i.owner))
            && Lower(i.owner) == g.owner
            && HasAddress(InviteMembers(i), g.owner)
            && Verifies(i.groupName, g.owner, OrOne(i.version), InviteMembers(i), i.pubkey, i.signature)
  {
    AddressIsPlain(g.my);
    InviteMembersRebuild(g, token);
    NormalizeValidClean(InviteMembers(InviteOf(g, token)));
    assert Me(g) in InviteMembers(InviteOf(g, token));
  }

  lemma InviteMerges(g: Group, token: string)
    requires OwnerInv(g)
    ensures MergeMembers("", [], InviteMembers(InviteOf(g, token))) == Canonical(g)
  {
    var incoming := InviteMembers(InviteOf(g, token));
    InviteMembersRebuild(g, token);
    MergeMembersIsFromFront([], incoming);
    MergeOfDistinct(incoming);
  }

  // An invite the owner issues is accepted by a new record, which ends up with
  // the signed list, version and owner.
  lemma InviteRebuilds(g: Group, token: string, h: Group)
    requires OwnerInv(g)
    requires h.my == "" && h.pubkey.None? && h.members == [] && OrOne(h.version) == 1
    ensures var r := MergeInvite(h, InviteOf(g, token));
            && r.Ok?
            && r.value.members == Canonical(g) && r.value.version == g.version
            && r.value.owner == g.owner && r.value.name == g.name
            && r.value.pubkey == g.pubkey && r.value.signature == g.signature
            && (token != "" ==> r.value.joinToken == Some(token))
  {
    InviteVerifies(g, token);
    InviteMerges(g, token);
    assert InviteOf(g, token).owner == g.owner;
  }
}
