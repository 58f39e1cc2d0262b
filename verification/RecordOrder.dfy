// Authenticated messages may be found in any order and more than once. The state
// they leave depends only on which indexes were found.
module RecordOrder {
  import opened Basics
  import opened OfflineState

  function RecordSeq(s: RecvState, q: seq<nat>): RecvState {
    if q == [] then s else Record(RecordSeq(s, q[..|q| - 1]), q[|q| - 1])
  }

  function Elements(q: seq<nat>): (r: set<nat>)
    ensures q != [] ==> q[0] in r
  {
    set x | x in q
  }

  lemma GreatestExists(s: set<nat>)
    requires s != {}
    ensures exists m :: m in s && forall x :: x in s ==> x <= m
  {
    var r := Sorted(s);
    var m := r[|r| - 1];
    assert m in s;
    forall x | x in s
      ensures x <= m
    {
      assert x in r;
    }
  }

  function Greatest(s: set<nat>): (m: nat)
    requires s != {}
    ensures m in s
    ensures forall x :: x in s ==> x <= m
  {
    GreatestExists(s);
    var m :| m in s && forall x :: x in s ==> x <= m;
    m
  }

  lemma GreatestOfMore(s: set<nat>, r: nat)
    requires s != {}
    ensures Greatest(s + {r}) == Max(Greatest(s), r)
  {
    var g := Greatest(s + {r});
    assert g in s || g == r;
    assert Greatest(s) in s + {r} && r in s + {r};
  }

  predicate U64s(found: set<nat>) {
    forall r :: r in found ==> r <= MAX_U64
  }

  // The state after a set of indexes was found, said without any order.
  function Found(s: RecvState, found: set<nat>): RecvState
    requires found != {}
  {
    var top := Greatest(found);
    var b := NextFree(s.base, s.Held() + found);
    s.(base := b,
    consumed := DropBelow(s.consumed + found, b) - Ceiling(b),
    known := Max(s.known, Min(MAX_U64, top + 1)),
    highest := Raise(s.highest, top),
    missing := s.missing - found,
    skipped := s.skipped - found - Ceiling(b))
  }

  lemma RecordOne(s: RecvState, r: nat)
    requires s.base <= MAX_U64 && r <= MAX_U64
    ensures Record(s, r) == Found(s, {r})
  {
    var noted := Note(s, r);
    var b := NextFree(s.base, s.Held() + {r});
    assert Greatest({r}) == r;
    forall x | s.base <= x < b
      ensures x in noted.Held()
    {
      assert x in s.Held() + {r};
    }
    NextFreeUnique(s.base, noted.Held(), b);
    assert DropBelow(noted.consumed, b) == DropBelow(s.consumed + {r}, b);
  }

  lemma BaseAfterOneMore(s: RecvState, found: set<nat>, r: nat)
    requires s.base <= MAX_U64 && found != {} && U64s(found) && r <= MAX_U64
    ensures NextFree(Found(s, found).base, Note(Found(s, found), r).Held())
         == NextFree(s.base, s.Held() + (found + {r}))
  {
    var t := Found(s, found);
    var held := Note(t, r).Held();
    var all := s.Held() + (found + {r});
    var b := NextFree(s.base, all);
    assert t.base <= b by {
      assert b < t.base ==> b in s.Held() + found;
      assert b < t.base ==> b in all;
    }
    forall x | t.base <= x < b
      ensures x in held
    {
      assert x in all && x < MAX_U64;
    }
    assert held <= all;
    NextFreeUnique(t.base, held, b);
  }

  function Consume(consumed: set<nat>, r: nat, b: nat): set<nat> {
    if r >= b then consumed + {r} else consumed
  }

  lemma ConsumedAfterOneMore(consumed: set<nat>, found: set<nat>, r: nat, b: nat, c: nat)
    requires b <= c <= MAX_U64
    ensures DropBelow(Consume(DropBelow(consumed + found, b) - Ceiling(b), r, b), c) - Ceiling(c)
         == DropBelow(consumed + (found + {r}), c) - Ceiling(c)
  {
  }

  lemma WithoutOneMore<V>(m: map<nat, V>, found: set<nat>, r: nat, early: set<nat>, late: set<nat>)
    requires early <= late
    ensures m - found - early - {r} - late == m - (found + {r}) - late
  {
  }

  lemma HeightsAfterOneMore(known: nat, highest: Option<nat>, found: set<nat>, r: nat)
    requires found != {}
    ensures Max(Max(known, Min(MAX_U64, Greatest(found) + 1)), Min(MAX_U64, r + 1))
         == Max(known, Min(MAX_U64, Greatest(found + {r}) + 1))
    ensures Raise(Raise(highest, Greatest(found)), r) == Raise(highest, Greatest(found + {r}))
  {
    GreatestOfMore(found, r);
  }

  lemma RecordAnother(s: RecvState, found: set<nat>, r: nat)
    requires s.base <= MAX_U64 && found != {} && U64s(found) && r <= MAX_U64
    ensures Record(Found(s, found), r) == Found(s, found + {r})
  {
    var t := Found(s, found);
    var u := Record(t, r);
    var v := Found(s, found + {r});
    assert u.base == v.base by { BaseAfterOneMore(s, found, r); }
    assert u.consumed == DropBelow(Consume(t.consumed, r, t.base), u.base) - Ceiling(u.base);
    assert t.base <= v.base && v.base <= MAX_U64;
    assert u.consumed == v.consumed by { ConsumedAfterOneMore(s.consumed, found, r, t.base, v.base); }
    assert u.skipped == v.skipped by { WithoutOneMore(s.skipped, found, r, Ceiling(t.base), Ceiling(v.base)); }
    assert u.missing == v.missing by { WithoutOneMore(s.missing, found, r, {}, {}); }
    assert u.known == v.known && u.highest == v.highest by { HeightsAfterOneMore(s.known, s.highest, found, r); }
  }

  // Finding indexes one at a time, in any order and with repeats, leaves exactly
  // the state that names only the set of them.
  lemma {:induction false} RecordSeqIsFound(s: RecvState, q: seq<nat>)
    requires s.base <= MAX_U64 && q != [] && U64s(Elements(q))
    ensures RecordSeq(s, q) == Found(s, Elements(q))
  {
    var front, last := q[..|q| - 1], q[|q| - 1];
    ElementsOfMore(front, last);
    assert q == front + [last];
    if front == [] {
      RecordOne(s, last);
      assert Elements(q) == {last};
    } else {
      RecordSeqIsFound(s, front);
      RecordAnother(s, Elements(front), last);
    }
  }

  lemma ElementsOfMore(q: seq<nat>, r: nat)
    ensures Elements(q + [r]) == Elements(q) + {r}
  {
  }

  lemma OrderIsIrrelevant(s: RecvState, q: seq<nat>, p: seq<nat>)
    requires s.base <= MAX_U64 && U64s(Elements(q))
    requires Elements(q) == Elements(p)
    ensures RecordSeq(s, q) == RecordSeq(s, p)
  {
    if q != [] {
      RecordSeqIsFound(s, q);
      RecordSeqIsFound(s, p);
    }
  }

  // Where the base ends: the least index from the old base on that is neither
  // held nor found, unless every index below the u64 ceiling is one of those.
  lemma BaseIsLeastUnfound(s: RecvState, q: seq<nat>, n: nat)
    requires s.base <= MAX_U64 && q != [] && U64s(Elements(q))
    requires s.base <= n < MAX_U64
    ensures RecordSeq(s, q).base == n
       <==> n !in s.Held() + Elements(q) && forall x :: s.base <= x < n ==> x in s.Held() + Elements(q)
  {
    RecordSeqIsFound(s, q);
    var held := s.Held() + Elements(q);
    if n !in held && forall x :: s.base <= x < n ==> x in held {
      NextFreeUnique(s.base, held, n);
    }
  }
}
