// The canonical order of group members: Python's stable sort by address and then
// name, both lower-cased. With distinct addresses the result is one list.
module MemberOrder {
  import opened Basics
  import opened Text

  datatype Member = Member(name: string, b32: string)

  function LowerChar(c: char): char {
    if 'A' <= c <= 'Z' then (c as int - 'A' as int + 'a' as int) as char else c
  }

  function Lower(s: string): (r: string)
    ensures |r| == |s|
    ensures forall i :: 0 <= i < |s| ==> r[i] == LowerChar(s[i])
  {
    if s == "" then "" else [LowerChar(s[0])] + Lower(s[1..])
  }

  // ---------------------------------------------------------- string order

  predicate LexLess(a: string, b: string) {
    b != "" && (a == "" || a[0] < b[0] || (a[0] == b[0] && LexLess(a[1..], b[1..])))
  }

  lemma {:induction false} LexTransitive(a: string, b: string, c: string)
    requires LexLess(a, b) && LexLess(b, c)
    ensures LexLess(a, c)
  {
    if a != "" && a[0] == b[0] == c[0] {
      LexTransitive(a[1..], b[1..], c[1..]);
    }
  }

  lemma {:induction false} LexTotal(a: string, b: string)
    ensures LexLess(a, b) || LexLess(b, a) || a == b
  {
    if a != "" && b != "" && a[0] == b[0] {
      LexTotal(a[1..], b[1..]);
      assert a == [a[0]] + a[1..] && b == [b[0]] + b[1..];
    }
  }

  lemma {:induction false} LexIrreflexive(a: string)
    ensures !LexLess(a, a)
  {
    if a != "" {
      LexIrreflexive(a[1..]);
    }
  }

  // ---------------------------------------------------------- stable sort

  function SortKey(m: Member): (string, string) {
    (Lower(m.b32), Lower(m.name))
  }

  predicate KeyLess(a: Member, b: Member) {
    var (ka, kb) := (SortKey(a), SortKey(b));
    LexLess(ka.0, kb.0) || (ka.0 == kb.0 && LexLess(ka.1, kb.1))
  }

  function Insert(m: Member, list: seq<Member>): (r: seq<Member>)
    ensures |r| == |list| + 1
  {
    if list == [] || KeyLess(m, list[0]) then [m] + list
    else [list[0]] + Insert(m, list[1..])
  }

  // Where Insert puts a member.
  function InsertPlace(m: Member, list: seq<Member>): (k: nat)
    ensures k <= |list|
  {
    if list == [] || KeyLess(m, list[0]) then 0 else 1 + InsertPlace(m, list[1..])
  }

  lemma {:induction false} InsertAtPlace(m: Member, list: seq<Member>)
    ensures Insert(m, list) == list[..InsertPlace(m, list)] + [m] + list[InsertPlace(m, list)..]
  {
    if list != [] && !KeyLess(m, list[0]) {
      InsertAtPlace(m, list[1..]);
      var k := InsertPlace(m, list[1..]);
      assert list[..k + 1] == [list[0]] + list[1..][..k] && list[k + 1..] == list[1..][k..];
    }
  }

  // list.sort(key=(b32.lower(), name.lower()))
  function Sort(list: seq<Member>): (r: seq<Member>)
    ensures |r| == |list|
  {
    if list == [] then [] else Insert(list[|list| - 1], Sort(list[..|list| - 1]))
  }

  // Strictly ascending addresses, so no address twice.
  predicate Ordered(list: seq<Member>) {
    forall i, j :: 0 <= i < j < |list| ==> LexLess(Lower(list[i].b32), Lower(list[j].b32))
  }

  predicate DistinctAddresses(list: seq<Member>) {
    forall i, j :: 0 <= i < j < |list| ==> Lower(list[i].b32) != Lower(list[j].b32)
  }

  predicate NewAddress(m: Member, list: seq<Member>) {
    forall x :: x in list ==> Lower(x.b32) != Lower(m.b32)
  }

  lemma {:induction false} InsertOrdered(m: Member, list: seq<Member>)
    requires Ordered(list) && NewAddress(m, list)
    ensures Ordered(Insert(m, list))
    ensures forall x :: x in Insert(m, list) <==> x == m || x in list
  {
    if list != [] {
      var head := list[0];
      LexTotal(Lower(m.b32), Lower(head.b32));
      LexIrreflexive(Lower(m.b32));
      assert head in list;
      if KeyLess(m, head) {
        forall j | 0 <= j < |list|
          ensures LexLess(Lower(m.b32), Lower(list[j].b32))
        {
          if j > 0 {
            LexTransitive(Lower(m.b32), Lower(head.b32), Lower(list[j].b32));
          }
        }
      } else {
        InsertOrdered(m, list[1..]);
        var rest := Insert(m, list[1..]);
        forall x | x in rest
          ensures LexLess(Lower(head.b32), Lower(x.b32))
        {
          if x != m {
            var j :| 0 <= j < |list[1..]| && list[1..][j] == x;
            assert list[j + 1] == x;
          }
        }
      }
    }
  }

  lemma {:induction false} SortOrders(list: seq<Member>)
    requires DistinctAddresses(list)
    ensures Ordered(Sort(list))
    ensures forall x :: x in Sort(list) <==> x in list
  {
    if list != [] {
      hide LexLess, Lower;
      var front, last := list[..|list| - 1], list[|list| - 1];
      assert list == front + [last];
      SortOrders(front);
      InsertOrdered(last, Sort(front));
    }
  }

  // Any list at all comes out in the order of its keys, with the very same entries.
  predicate InKeyOrder(list: seq<Member>) {
    forall i, j :: 0 <= i < j < |list| ==> !KeyLess(list[j], list[i])
  }

  lemma KeyNotLess(a: Member, b: Member, c: Member)
    requires !KeyLess(b, a) && !KeyLess(c, b)
    ensures !KeyLess(c, a)
  {
    if KeyLess(c, a) {
      LexBetween(Lower(a.b32), Lower(b.b32), Lower(c.b32));
      LexBetween(Lower(a.name), Lower(b.name), Lower(c.name));
    }
  }

  // What is below a is below b, unless b is below a.
  lemma LexBetween(a: string, b: string, c: string)
    ensures LexLess(c, a) ==> LexLess(c, b) || LexLess(b, a)
    ensures LexLess(a, b) ==> !LexLess(b, a)
    ensures LexLess(c, b) && LexLess(b, a) ==> LexLess(c, a)
    ensures LexLess(a, b) || LexLess(b, a) || a == b
    ensures LexLess(b, c) || LexLess(c, b) || b == c
    ensures LexLess(b, c) ==> !LexLess(c, b)
  {
    hide LexLess;
    LexTotal(a, b);
    LexTotal(b, c);
    LexIrreflexive(a);
    LexIrreflexive(b);
    if LexLess(c, a) && LexLess(a, b) {
      LexTransitive(c, a, b);
    }
    if LexLess(a, b) && LexLess(b, a) {
      LexTransitive(a, b, a);
    }
    if LexLess(c, b) && LexLess(b, a) {
      LexTransitive(c, b, a);
    }
    if LexLess(b, c) && LexLess(c, b) {
      LexTransitive(b, c, b);
    }
  }

  lemma NotBothLess(a: Member, b: Member)
    ensures !(KeyLess(a, b) && KeyLess(b, a))
  {
    hide LexLess, Lower;
    LexBetween(Lower(a.b32), Lower(b.b32), Lower(a.b32));
    LexBetween(Lower(a.name), Lower(b.name), Lower(a.name));
  }

  lemma {:induction false} InsertInKeyOrder(m: Member, list: seq<Member>)
    requires InKeyOrder(list)
    ensures InKeyOrder(Insert(m, list)) && multiset(Insert(m, list)) == multiset(list) + multiset{m}
  {
    hide KeyLess;
    if list != [] {
      NotBothLess(m, list[0]);
      assert list == [list[0]] + list[1..];
      if KeyLess(m, list[0]) {
        forall j | 0 <= j < |list|
          ensures !KeyLess(list[j], m)
        {
          if j > 0 {
            KeyNotLess(m, list[0], list[j]);
          }
        }
      } else {
        InsertInKeyOrder(m, list[1..]);
        var rest := Insert(m, list[1..]);
        forall x | x in rest
          ensures !KeyLess(x, list[0])
        {
          assert x in multiset(rest);
          if x != m {
            assert x in list[1..];
          }
        }
      }
    }
  }

  // By address and, for entries of one address, by name.
  lemma {:induction false} SortsAnyList(list: seq<Member>)
    ensures multiset(Sort(list)) == multiset(list)
    ensures forall i, j :: 0 <= i < j < |list| ==>
              var (x, y) := (Sort(list)[i], Sort(list)[j]);
              || LexLess(Lower(x.b32), Lower(y.b32))
              || (Lower(x.b32) == Lower(y.b32) && !LexLess(Lower(y.name), Lower(x.name)))
    ensures InKeyOrder(Sort(list))
  {
    hide LexLess, Lower;
    if list != [] {
      var front, last := list[..|list| - 1], list[|list| - 1];
      assert list == front + [last];
      SortsAnyList(front);
      InsertInKeyOrder(last, Sort(front));
    }
    forall i, j | 0 <= i < j < |list|
      ensures var (x, y) := (Sort(list)[i], Sort(list)[j]);
              || LexLess(Lower(x.b32), Lower(y.b32))
              || (Lower(x.b32) == Lower(y.b32) && !LexLess(Lower(y.name), Lower(x.name)))
    {
      LexTotal(Lower(Sort(list)[i].b32), Lower(Sort(list)[j].b32));
    }
  }

  lemma {:induction false} InsertLast(m: Member, list: seq<Member>)
    requires forall x :: x in list ==> LexLess(Lower(x.b32), Lower(m.b32))
    ensures Insert(m, list) == list + [m]
  {
    if list != [] {
      assert list[0] in list;
      LexIrreflexive(Lower(m.b32));
      if LexLess(Lower(m.b32), Lower(list[0].b32)) {
        LexTransitive(Lower(m.b32), Lower(list[0].b32), Lower(m.b32));
      }
      assert !KeyLess(m, list[0]);
      InsertLast(m, list[1..]);
    }
  }

  lemma {:induction false} SortOfOrdered(list: seq<Member>)
    requires Ordered(list)
    ensures Sort(list) == list
  {
    if list != [] {
      SortOfOrdered(list[..|list| - 1]);
      InsertLast(list[|list| - 1], list[..|list| - 1]);
    }
  }

  lemma OrderedIsDistinct(list: seq<Member>)
    requires Ordered(list)
    ensures DistinctAddresses(list)
  {
    forall i, j | 0 <= i < j < |list|
      ensures Lower(list[i].b32) != Lower(list[j].b32)
    {
      LexIrreflexive(Lower(list[i].b32));
    }
  }

  // Two ordered lists with the same members are the same list.
  lemma {:induction false} OrderedUnique(a: seq<Member>, b: seq<Member>)
    requires Ordered(a) && Ordered(b)
    requires forall x :: x in a <==> x in b
    ensures a == b
  {
    if a == [] {
      if b != [] {
        HeadIsLeast(b, a);
      }
    } else {
      HeadIsLeast(a, b);
      assert a[0] in b && a[0] == b[0];
      TailMembers(a, b);
      OrderedUnique(a[1..], b[1..]);
      assert a == [a[0]] + a[1..] && b == [b[0]] + b[1..];
    }
  }

  lemma HeadIsLeast(a: seq<Member>, b: seq<Member>)
    requires Ordered(a) && Ordered(b) && a != []
    requires forall x :: x in a <==> x in b
    ensures b != [] && a[0] == b[0]
  {
    assert a[0] in b;
    var j :| 0 <= j < |b| && b[j] == a[0];
    assert b[0] in a;
    var i :| 0 <= i < |a| && a[i] == b[0];
    if i > 0 && j > 0 {
      LexTransitive(Lower(a[0].b32), Lower(b[0].b32), Lower(a[0].b32));
      LexIrreflexive(Lower(a[0].b32));
    }
  }

  lemma TailMembers(a: seq<Member>, b: seq<Member>)
    requires Ordered(a) && Ordered(b) && a != [] && b != [] && a[0] == b[0]
    requires forall x :: x in a <==> x in b
    ensures forall x :: x in a[1..] <==> x in b[1..]
  {
    OrderedIsDistinct(a);
    OrderedIsDistinct(b);
    assert forall x :: x in a <==> x == a[0] || x in a[1..];
    assert forall x :: x in b <==> x == b[0] || x in b[1..];
  }

  // Sorting does not depend on the order the members came in.
  lemma SortForgetsOrder(a: seq<Member>, b: seq<Member>)
    requires DistinctAddresses(a) && DistinctAddresses(b)
    requires forall x :: x in a <==> x in b
    ensures Sort(a) == Sort(b)
  {
    SortOrders(a);
    SortOrders(b);
    OrderedUnique(Sort(a), Sort(b));
  }
}
