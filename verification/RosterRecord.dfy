// The group record as group_ops.py handles it: one object whose entries are
// updated in place, holding member entries that are objects of their own. A
// rename writes into an entry, so every list that holds the entry sees it. Each
// method is proved against the function of Roster that says what it does.
module RosterRecord {
  import opened Basics
  import opened Text
  import opened MemberOrder
  import opened Roster

  class Entry {
    const b32: string
    var name: string

    function Value(): Member
      reads this
    {
      Member(name, b32)
    }

    constructor (m: Member)
      ensures Value() == m
    {
      name, b32 := m.name, m.b32;
    }
  }

  function Values(list: seq<Entry>): (r: seq<Member>)
    reads list
    ensures |r| == |list|
  {
    if list == [] then [] else [list[0].Value()] + Values(list[1..])
  }

  lemma {:induction false} ValueAt(list: seq<Entry>, i: nat)
    requires i < |list|
    ensures Values(list)[i] == list[i].Value()
  {
    if i > 0 {
      ValueAt(list[1..], i - 1);
    }
  }

  lemma {:induction false} ValuesOfParts(a: seq<Entry>, b: seq<Entry>)
    ensures Values(a + b) == Values(a) + Values(b)
  {
    if a == [] {
      assert a + b == b;
    } else {
      assert (a + b)[0] == a[0] && (a + b)[1..] == a[1..] + b;
      ValuesOfParts(a[1..], b);
    }
  }

  lemma NoValues()
    ensures Values([]) == []
  {
  }

  lemma ValuesOfOne(e: Entry)
    ensures Values([e]) == [e.Value()]
  {
  }

  lemma ValuesOfReplaced(list: seq<Entry>, i: nat, e: Entry)
    requires i < |list|
    ensures Values(list[i := e]) == Values(list)[i := e.Value()]
  {
    hide Values;
    var (front, back) := (list[..i], list[i + 1..]);
    assert list[i := e] == front + [e] + back && list == front + [list[i]] + back;
    ValuesOfParts(front + [e], back);
    ValuesOfParts(front, [e]);
    ValuesOfParts(front + [list[i]], back);
    ValuesOfParts(front, [list[i]]);
    ValuesOfOne(e);
    ValuesOfOne(list[i]);
  }

  predicate Distinct(list: seq<Entry>) {
    forall i, j :: 0 <= i < j < |list| ==> list[i] != list[j]
  }

  class Record {
    var name: string
    var my: string
    var myName: string
    var owner: string
    var version: int
    var members: seq<Entry>
    var joinToken: Option<string>
    var invites: seq<Invite>
    var secret: Option<nat>
    var pubkey: Option<nat>
    var signature: Option<Signature>

    function View(): Group
      reads this, members
    {
      Group(name, my, myName, owner, version, Values(members), joinToken, invites, secret, pubkey, signature)
    }

    constructor (g: Group)
      ensures View() == g && Distinct(members) && fresh(members)
    {
      name, my, myName, owner, version := g.name, g.my, g.myName, g.owner, g.version;
      joinToken, invites, secret, pubkey, signature := g.joinToken, g.invites, g.secret, g.pubkey, g.signature;
      members := [];
      new;
      members := NewEntries(g.members);
    }

    method CanonicalMembers() returns (list: seq<Member>)
      ensures list == Canonical(View())
    {
      hide Normalize, ValidAddress, Sort, Lower, Trim;
      list := [];
      var seen: set<string> := {};
      var i := 0;
      ghost var values := Values(members);
      ghost var all := Deduped(values, {});
      assert values[0..] == values;
      while i < |members|
        invariant i <= |members|
        invariant all == list + Deduped(values[i..], seen)
      {
        ValueAt(members, i);
        var n := Normalize(members[i].Value());
        assert values[i..][1..] == values[i + 1..];
        if ValidAddress(n.b32) && Lower(n.b32) !in seen {
          assert list + ([n] + Deduped(values[i + 1..], seen + {Lower(n.b32)}))
              == (list + [n]) + Deduped(values[i + 1..], seen + {Lower(n.b32)});
          seen := seen + {Lower(n.b32)};
          list := list + [n];
        }
        i := i + 1;
      }
      assert list + [] == list;
      list := Sort(WithOwner(View(), list));
    }

    // Whether the list changed. A known address keeps its place but gets a new
    // entry unless nothing changes; every other entry stays the object it was.
    method MergeGroupMember(m: Member) returns (changed: bool)
      requires Distinct(members)
      modifies this`members
      ensures Distinct(members) && Values(members) == MergeMember(my, old(Values(members)), m)
      ensures changed <==> Values(members) != old(Values(members))
      ensures !changed ==> members == old(members)
      ensures forall e :: e in members && e !in old(members) ==> fresh(e)
    {
      hide Normalize, ValidAddress, Sort, Lower, Values;
      var n := Normalize(m);
      if !ValidAddress(n.b32) || (my != "" && Lower(n.b32) == Lower(my)) {
        return false;
      }
      var i := FindEntry(members, Lower(n.b32));
      if i == |members| {
        AppendEntry(n);
        return true;
      }
      ValueAt(members, i);
      changed := members[i].Value() != n;
      if changed {
        ReplaceEntry(i, n);
      }
    }

    method ReplaceEntry(i: nat, n: Member)
      requires i < |members| && Distinct(members)
      modifies this`members
      ensures Distinct(members) && Values(members) == old(Values(members)[i := n])
      ensures forall e :: e in members && e !in old(members) ==> fresh(e)
    {
      var e := new Entry(n);
      ValuesOfReplaced(members, i, e);
      members := members[i := e];
    }

    method AppendEntry(n: Member)
      requires Distinct(members)
      modifies this`members
      ensures Distinct(members) && Values(members) == Sort(old(Values(members)) + [n])
      ensures forall e :: e in members && e !in old(members) ==> fresh(e)
    {
      hide Sort, Values;
      var e := new Entry(n);
      ValuesOfParts(members, [e]);
      ValuesOfOne(e);
      members := SortEntries(members + [e]);
    }

    method SignIfAdmin(spare: nat)
      modifies this`secret, this`pubkey, this`signature
      ensures View() == Roster.SignIfAdmin(old(View()), spare)
    {
      hide Canonical, Lower;
      if IsAdmin(View()) {
        if secret.None? || pubkey.None? {
          secret, pubkey := Some(spare), Some(spare);
        }
        pubkey := secret;
        var list := CanonicalMembers();
        CanonicalNeedsNoKey(View(), old(View()));
        signature := Some(Signature(secret.value, Payload(name, owner, OrOne(version), list)));
      }
    }

    method RedeemToken(token: string, m: Member, spare: nat) returns (error: Option<Error>)
      requires Distinct(members)
      modifies this
      ensures Distinct(members)
      ensures match Redeem(old(View()), token, m, spare)
              case Ok(g) => error == None && View() == g
              case Err(e) => error == Some(e) && View() == old(View())
      ensures forall e :: e in members && e !in old(members) ==> fresh(e)
    {
      hide Normalize, MergeMember, Lower, ValidName, Canonical, Values, TokenPosition, Roster.SignIfAdmin;
      if !IsAdmin(View()) {
        return Some(NotOwner);
      }
      var i := FindToken(invites, token);
      if i == |invites| {
        return Some(UnknownToken);
      }
      if !ValidName(m.name) {
        return Some(BadName);
      }
      var n := Normalize(m);
      if invites[i].redeemed != "" && Lower(invites[i].redeemed) != Lower(n.b32) {
        return Some(TokenTaken);
      }
      invites := invites[i := invites[i].(redeemed := n.b32)];
      var changed := MergeGroupMember(n);
      if changed {
        version := OrOne(version) + 1;
      }
      SignIfAdmin(spare);
      return None;
    }

    // The entry itself is written, so the list of entries stays the same.
    method ApplyRename(b32: string, displayName: string, spare: nat) returns (error: Option<Error>)
      requires Distinct(members)
      modifies this, members
      ensures members == old(members)
      ensures match Rename(old(View()), b32, displayName, spare)
              case Ok(g) => error == None && View() == g
              case Err(e) => error == Some(e) && View() == old(View())
    {
      hide Lower, Trim, ValidName, ValidAddress, Canonical, Values, Position, Roster.SignIfAdmin;
      if !ValidName(displayName) {
        return Some(BadName);
      }
      if !ValidAddress(b32) {
        return Some(BadAddress);
      }
      var addr := Lower(Trim(b32));
      var i := FindEntry(members, addr);
      if i == |members| {
        return Some(NotAMember);
      }
      ValueAt(members, i);
      if members[i].name != Trim(displayName) {
        RenameAt(i, Trim(displayName));
        version := OrOne(version) + 1;
        SignIfAdmin(spare);
      }
      return None;
    }

    method RenameAt(i: nat, displayName: string)
      requires i < |members| && Distinct(members)
      modifies members[i]
      ensures members[i].name == displayName
      ensures Values(members) == old(Values(members)[i := Values(members)[i].(name := displayName)])
    {
      ghost var values := Values(members);
      forall j | 0 <= j < |members|
        ensures values[j] == members[j].Value()
      {
        ValueAt(members, j);
      }
      members[i].name := displayName;
      forall j | 0 <= j < |members|
        ensures Values(members)[j] == members[j].Value()
      {
        ValueAt(members, j);
      }
    }

    // Up to the awaits: the entries that will remain, the record's own.
    method StartRemoval(b32: string) returns (r: Result<seq<Entry>, Error>)
      requires Distinct(members)
      ensures match StartRemove(View(), b32)
              case Ok(list) =>
                r.Ok? && Values(r.value) == list && Distinct(r.value) && forall e :: e in r.value ==> e in members
              case Err(e) => r == Err(e)
    {
      hide Lower, Trim, Values;
      var addr := Lower(Trim(b32));
      if !IsAdmin(View()) {
        return Err(NotOwner);
      }
      if addr == "" || addr == Lower(my) || addr == Lower(owner) {
        return Err(BadAddress);
      }
      var remaining: seq<Entry> := [];
      NoValues();
      var i := 0;
      ghost var values := Values(members);
      ghost var all := Without(values, addr);
      assert values[0..] == values;
      while i < |members|
        invariant i <= |members|
        invariant all == Values(remaining) + Without(values[i..], addr)
        invariant Distinct(remaining) && forall e :: e in remaining ==> e in members[..i]
      {
        assert values[i..][1..] == values[i + 1..];
        assert members[..i + 1] == members[..i] + [members[i]];
        ValueAt(members, i);
        if Lower(members[i].b32) != addr {
          assert members[i] !in members[..i];
          ValuesOfParts(remaining, [members[i]]);
          ValuesOfOne(members[i]);
          assert Values(remaining) + ([values[i]] + Without(values[i + 1..], addr))
              == (Values(remaining) + [values[i]]) + Without(values[i + 1..], addr);
          remaining := remaining + [members[i]];
        }
        i := i + 1;
      }
      assert Values(remaining) + [] == Values(remaining);
      return if |remaining| == |members| then Err(NotAMember) else Ok(remaining);
    }

    // After the awaits: those entries, as they read by now, are the members.
    method FinishRemoval(remaining: seq<Entry>, spare: nat)
      modifies this
      ensures members == remaining && View() == FinishRemove(old(View()), old(Values(remaining)), spare)
    {
      hide Canonical, Lower;
      members := remaining;
      version := OrOne(version) + 1;
      SignIfAdmin(spare);
    }

    method MergeRosterSync(r: RosterSync) returns (error: Option<Error>)
      requires Distinct(members)
      modifies this
      ensures Distinct(members)
      ensures match MergeSync(old(View()), r)
              case Ok(g) => error == None && View() == g
              case Err(e) => error == Some(e) && View() == old(View())
    {
      hide Lower, Trim, ValidAddress, NormalizeValid, Verifies, Adopt, Values;
      if Trim(r.groupName) == "" {
        return Some(EmptyGroupName);
      }
      if !ValidAddress(Lower(r.owner)) {
        return Some(BadAddress);
      }
      if owner != "" && Lower(owner) != Lower(r.owner) {
        return Some(WrongOwner);
      }
      if pubkey.Some? && pubkey != r.pubkey {
        return Some(WrongKey);
      }
      var incoming := NormalizeValid(r.members);
      if !Verifies(r.groupName, Lower(r.owner), OrOne(r.version), incoming, r.pubkey, r.signature) {
        return Some(BadSignature);
      }
      if OrOne(r.version) > OrOne(version) {
        AdoptRoster(r);
      }
      return None;
    }

    method AdoptRoster(r: RosterSync)
      requires Distinct(members)
      modifies this
      ensures Distinct(members) && View() == Adopt(old(View()), r)
    {
      hide Lower, NormalizeValid, MergeMember, MergeMembers, HasAddress, Values;
      NoValues();
      var incoming := NormalizeValid(r.members);
      var selfRemoved := SelfRemoved(View(), r);
      name := r.groupName;
      owner := Lower(r.owner);
      members := [];
      if selfRemoved {
        joinToken := None;
      } else {
        MergeEach(incoming);
      }
      version := OrOne(r.version);
      pubkey := r.pubkey;
      signature := r.signature;
    }

    method MergeEach(incoming: seq<Member>)
      requires Distinct(members)
      modifies this`members
      ensures Distinct(members) && Values(members) == MergeMembers(my, old(Values(members)), incoming)
    {
      hide MergeMember;
      var i := 0;
      while i < |incoming|
        modifies this`members
        invariant i <= |incoming| && Distinct(members)
        invariant MergeMembers(my, Values(members), incoming[i..]) == MergeMembers(my, old(Values(members)), incoming)
      {
        assert incoming[i..][1..] == incoming[i + 1..];
        var changed := MergeGroupMember(incoming[i]);
        i := i + 1;
      }
    }
  }

  method NewEntries(list: seq<Member>) returns (r: seq<Entry>)
    ensures fresh(r) && Distinct(r) && Values(r) == list
  {
    r := [];
    for i := 0 to |list|
      invariant fresh(r) && Distinct(r) && Values(r) == list[..i]
    {
      var e := new Entry(list[i]);
      ValuesOfParts(r, [e]);
      ValuesOfOne(e);
      r := r + [e];
    }
  }

  method FindEntry(list: seq<Entry>, addr: string) returns (i: nat)
    ensures i == Position(Values(list), addr)
  {
    hide Lower;
    ghost var values := Values(list);
    i := 0;
    while i < |list|
      invariant i <= |list|
      invariant Position(values, addr) == i + Position(values[i..], addr)
    {
      ValueAt(list, i);
      if Lower(list[i].b32) == addr {
        return;
      }
      assert values[i..][1..] == values[i + 1..];
      i := i + 1;
    }
  }

  method FindToken(invites: seq<Invite>, token: string) returns (i: nat)
    ensures i == TokenPosition(invites, token)
  {
    i := 0;
    while i < |invites| && invites[i].token != token
      invariant i <= |invites|
      invariant TokenPosition(invites, token) == i + TokenPosition(invites[i..], token)
    {
      assert invites[i..][1..] == invites[i + 1..];
      i := i + 1;
    }
  }

  // list.sort() on entries: the same entries, in the order Sort gives their values.
  method SortEntries(list: seq<Entry>) returns (r: seq<Entry>)
    requires Distinct(list)
    ensures Values(r) == Sort(Values(list)) && Distinct(r)
    ensures forall e :: e in r <==> e in list
  {
    hide Sort, Insert, KeyLess;
    r := [];
    ghost var values := Values(list);
    SortNothing();
    for i := 0 to |list|
      invariant Values(r) == Sort(values[..i]) && Distinct(r)
      invariant forall e :: e in r <==> e in list[..i]
    {
      SortOneMore(values, i);
      assert list[..i + 1] == list[..i] + [list[i]];
      assert list[i] !in list[..i];
      ValueAt(list, i);
      r := InsertEntry(list[i], r);
    }
    assert values[..|list|] == values && list[..|list|] == list;
  }

  lemma SortNothing()
    ensures Sort([]) == []
  {
  }

  lemma SortOneMore(values: seq<Member>, i: nat)
    requires i < |values|
    ensures Sort(values[..i + 1]) == Insert(values[i], Sort(values[..i]))
  {
    assert values[..i + 1][..i] == values[..i];
  }

  method InsertEntry(e: Entry, list: seq<Entry>) returns (r: seq<Entry>)
    requires Distinct(list) && e !in list
    ensures Values(r) == Insert(e.Value(), Values(list)) && Distinct(r)
    ensures forall x :: x in r <==> x == e || x in list
  {
    hide KeyLess, Insert, InsertPlace, Values;
    ghost var values := Values(list);
    var k := 0;
    while k < |list| && !KeyLess(e.Value(), list[k].Value())
      invariant k <= |list|
      invariant InsertPlace(e.Value(), values) == k + InsertPlace(e.Value(), values[k..])
    {
      ValueAt(list, k);
      PlaceStep(e.Value(), values, k);
      k := k + 1;
    }
    if k < |list| {
      ValueAt(list, k);
    }
    PlaceStep(e.Value(), values, k);
    InsertAtPlace(e.Value(), values);
    r := list[..k] + [e] + list[k..];
    assert list[..k] + list[k..] == list;
    InsertedValues(list[..k], e, list[k..]);
    DistinctInserted(list, k, e);
  }

  lemma PlaceStep(m: Member, values: seq<Member>, k: nat)
    requires k <= |values|
    ensures InsertPlace(m, values[k..])
         == if k == |values| || KeyLess(m, values[k]) then 0 else 1 + InsertPlace(m, values[k + 1..])
  {
    hide KeyLess;
    assert k < |values| ==> values[k..][0] == values[k] && values[k..][1..] == values[k + 1..];
  }

  lemma InsertedValues(front: seq<Entry>, e: Entry, back: seq<Entry>)
    ensures var k := |front|; var values := Values(front + back);
            Values(front + [e] + back) == values[..k] + [e.Value()] + values[k..]
  {
    hide Values;
    ValuesOfParts(front + [e], back);
    ValuesOfParts(front, [e]);
    ValuesOfParts(front, back);
    ValuesOfOne(e);
  }

  lemma DistinctInserted(list: seq<Entry>, k: nat, e: Entry)
    requires k <= |list| && Distinct(list) && e !in list
    ensures var r := list[..k] + [e] + list[k..];
            Distinct(r) && forall x :: x in r <==> x == e || x in list
  {
    var r := list[..k] + [e] + list[k..];
    assert forall i :: 0 <= i < |r| ==> r[i] == if i < k then list[i] else if i == k then e else list[i - 1];
    forall x | x in list
      ensures x in r
    {
      var i :| 0 <= i < |list| && list[i] == x;
      assert r[if i < k then i else i + 1] == x;
    }
    assert r[k] == e;
  }
}
