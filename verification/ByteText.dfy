// Text as bytes: str.encode(), and byte strings built of fields that a separator
// keeps apart.
module ByteText {
  import opened Basics
  import opened Text

  const BAR: Byte := 0x7C

  function Utf8(c: char): seq<Byte> {
    var n := c as int;
    if n < 0x80 then [n]
    else if n < 0x800 then [0xC0 + n / 0x40, Tail(n)]
    else if n < 0x1_0000 then [0xE0 + n / 0x1000, Tail(n / 0x40), Tail(n)]
    else [(0xF0 + n / 0x4_0000) % 0x100, Tail(n / 0x1000), Tail(n / 0x40), Tail(n)]
  }

  function Tail(n: nat): Byte {
    0x80 + n % 0x40
  }

  function Encode(s: string): seq<Byte> {
    if s == "" then [] else Utf8(s[0]) + Encode(s[1..])
  }

  predicate Ascii(s: string) {
    forall c :: c in s ==> c as int < 0x80
  }

  lemma {:induction false} EncodeAscii(s: string)
    requires Ascii(s)
    ensures |Encode(s)| == |s|
    ensures forall i :: 0 <= i < |s| ==> Encode(s)[i] == s[i] as int
  {
    if s != "" {
      assert s[0] in s;
      assert forall c :: c in s[1..] ==> c in s;
      EncodeAscii(s[1..]);
      assert Encode(s) == [s[0] as int] + Encode(s[1..]);
    }
  }

  lemma EncodeInjective(s: string, t: string)
    requires Ascii(s) && Ascii(t) && Encode(s) == Encode(t)
    ensures s == t
  {
    EncodeAscii(s);
    EncodeAscii(t);
    assert forall i :: 0 <= i < |s| ==> s[i] == t[i];
  }

  // ASCII text that the separator cannot be confused with.
  predicate FieldText(s: string) {
    Ascii(s) && '|' !in s
  }

  lemma FieldHasNoBar(s: string)
    requires FieldText(s)
    ensures BAR !in Encode(s)
  {
    EncodeAscii(s);
    assert '|' as int == BAR;
    forall i | 0 <= i < |s|
      ensures Encode(s)[i] != BAR
    {
      assert s[i] in s;
    }
  }

  lemma DecIsField(n: nat)
    ensures FieldText(Dec(n))
  {
    assert forall c :: c in Dec(n) ==> IsDigit(c);
  }

  // Two byte strings that agree split at the same first separator.
  lemma FirstField(a: seq<Byte>, x: seq<Byte>, b: seq<Byte>, y: seq<Byte>)
    requires BAR !in a && BAR !in b
    requires a + [BAR] + x == b + [BAR] + y
    ensures a == b && x == y
  {
    var s := a + [BAR] + x;
    var t := b + [BAR] + y;
    assert s[|a|] == BAR && t[|b|] == BAR;
    assert forall k :: 0 <= k < |a| ==> s[k] == a[k] != BAR;
    assert forall k :: 0 <= k < |b| ==> t[k] == b[k] != BAR;
    assert |a| == |b|;
    assert s[..|a|] == a && (b + [BAR] + y)[..|b|] == b;
    assert s[|a| + 1..] == x && (b + [BAR] + y)[|b| + 1..] == y;
  }

  lemma FirstText(s: string, x: seq<Byte>, t: string, y: seq<Byte>)
    requires FieldText(s) && FieldText(t)
    requires Encode(s) + [BAR] + x == Encode(t) + [BAR] + y
    ensures s == t && x == y
  {
    FieldHasNoBar(s);
    FieldHasNoBar(t);
    FirstField(Encode(s), x, Encode(t), y);
    EncodeInjective(s, t);
  }

  // A field of known length needs no separator to be told from what follows.
  lemma FixedField(a: seq<Byte>, x: seq<Byte>, b: seq<Byte>, y: seq<Byte>)
    requires |a| == |b|
    requires a + [BAR] + x == b + [BAR] + y
    ensures a == b && x == y
  {
    var s := a + [BAR] + x;
    assert s[..|a|] == a && (b + [BAR] + y)[..|b|] == b;
    assert s[|a| + 1..] == x && (b + [BAR] + y)[|b| + 1..] == y;
  }
}
