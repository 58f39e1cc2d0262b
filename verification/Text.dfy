// Python's text operations that the file format and the key material use, on
// the ASCII range: strip, split, join, str of a number, int of a string.
module Text {
  import opened Basics

  predicate IsSpace(c: char) {
    9 as char <= c <= 13 as char || 28 as char <= c <= 32 as char
  }

  function TrimLeft(s: string): string {
    if s != "" && IsSpace(s[0]) then TrimLeft(s[1..]) else s
  }

  function TrimRight(s: string): string {
    if s != "" && IsSpace(s[|s| - 1]) then TrimRight(s[..|s| - 1]) else s
  }

  function Trim(s: string): string {
    TrimRight(TrimLeft(s))
  }

  // A string without any white space, which strip leaves alone.
  predicate Plain(s: string) {
    forall c :: c in s ==> !IsSpace(c)
  }

  lemma TrimPlain(s: string)
    requires Plain(s)
    ensures Trim(s) == s
  {
    assert s != "" ==> s[0] in s && s[|s| - 1] in s;
  }

  // What strip leaves: nothing, or a string that neither starts nor ends with white space.
  predicate Trimmed(s: string) {
    s != "" ==> !IsSpace(s[0]) && !IsSpace(s[|s| - 1])
  }

  lemma {:induction false} TrimLeftEnds(s: string)
    ensures var t := TrimLeft(s); t != "" ==> !IsSpace(t[0])
  {
    if s != "" && IsSpace(s[0]) {
      TrimLeftEnds(s[1..]);
    }
  }

  lemma {:induction false} TrimRightEnds(s: string)
    requires s != "" ==> !IsSpace(s[0])
    ensures Trimmed(TrimRight(s))
  {
    if s != "" && IsSpace(s[|s| - 1]) {
      TrimRightEnds(s[..|s| - 1]);
    }
  }

  lemma TrimIsTrimmed(s: string)
    ensures Trimmed(Trim(s))
    ensures Trimmed(s) ==> Trim(s) == s
  {
    TrimLeftEnds(s);
    TrimRightEnds(TrimLeft(s));
  }

  // ------------------------------------------------------------ split, join

  function IndexOf(s: string, sep: char): (i: nat)
    requires sep in s
    ensures i < |s| && s[i] == sep && sep !in s[..i]
  {
    if s[0] == sep then 0 else 1 + IndexOf(s[1..], sep)
  }

  lemma IndexOfUnique(s: string, sep: char, n: nat)
    requires n < |s| && s[n] == sep && sep !in s[..n]
    ensures IndexOf(s, sep) == n
  {
    if n > 0 {
      assert s[..n][0] == s[0];
      assert s[1..][..n - 1] == s[..n][1..];
      IndexOfUnique(s[1..], sep, n - 1);
    }
  }

  function Split(s: string, sep: char): (parts: seq<string>)
    ensures parts != []
    decreases |s|
  {
    if sep !in s then [s] else
      var i := IndexOf(s, sep);
      [s[..i]] + Split(s[i + 1..], sep)
  }

  function Join(parts: seq<string>, sep: char): string {
    if parts == [] then ""
    else if |parts| == 1 then parts[0]
    else parts[0] + [sep] + Join(parts[1..], sep)
  }

  lemma SplitFirst(a: string, rest: string, sep: char)
    requires sep !in a
    ensures Split(a + [sep] + rest, sep) == [a] + Split(rest, sep)
  {
    var s := a + [sep] + rest;
    assert s[|a|] == sep && s[..|a|] == a;
    var i := IndexOf(s, sep);
    IndexOfUnique(s, sep, |a|);
    assert s[..i] == a && s[i + 1..] == rest;
  }

  lemma {:induction false} SplitOfJoin(parts: seq<string>, sep: char)
    requires parts != [] && forall p :: p in parts ==> sep !in p
    ensures Split(Join(parts, sep), sep) == parts
  {
    if |parts| > 1 {
      assert parts[0] in parts;
      SplitFirst(parts[0], Join(parts[1..], sep), sep);
      SplitOfJoin(parts[1..], sep);
    }
  }

  lemma {:induction false} PlainJoin(parts: seq<string>, sep: char)
    requires !IsSpace(sep) && forall p :: p in parts ==> Plain(p)
    ensures Plain(Join(parts, sep))
  {
    if |parts| > 1 {
      assert parts[0] in parts;
      PlainJoin(parts[1..], sep);
    } else if |parts| == 1 {
      assert parts[0] in parts;
    }
  }

  // ---------------------------------------------------------------- numbers

  predicate IsDigit(c: char) {
    '0' <= c <= '9'
  }

  function DigitChar(d: nat): (c: char)
    requires d < 10
    ensures IsDigit(c) && c as int - '0' as int == d
  {
    ('0' as int + d) as char
  }

  predicate AllDigits(s: string) {
    forall c :: c in s ==> IsDigit(c)
  }

  function Dec(n: nat): (s: string)
    ensures AllDigits(s) && s != ""
  {
    if n < 10 then [DigitChar(n)] else Dec(n / 10) + [DigitChar(n % 10)]
  }

  // Digits with single underscores between them, as int() accepts.
  function Digits(s: string, acc: nat, afterDigit: bool): Option<nat> {
    if s == "" then (if afterDigit then Some(acc) else None)
    else if IsDigit(s[0]) then Digits(s[1..], 10 * acc + (s[0] as int - '0' as int), true)
    else if s[0] == '_' && afterDigit then Digits(s[1..], acc, false)
    else None
  }

  function PyInt(s: string): Option<int> {
    var t := Trim(s);
    if t != "" && t[0] in "+-" then
      match Digits(t[1..], 0, false)
      case Some(n) => var i: int := n; Some(if t[0] == '-' then -i else i)
      case None => None
    else
      match Digits(t, 0, false)
      case Some(n) => Some(n)
      case None => None
  }

  lemma {:induction false} DigitsThenOne(s: string, d: char, acc: nat, afterDigit: bool)
    requires AllDigits(s) && IsDigit(d) && (s == "" ==> afterDigit)
    ensures Digits(s, acc, afterDigit).Some?
    ensures Digits(s + [d], acc, afterDigit) == Some(10 * Digits(s, acc, afterDigit).value + (d as int - '0' as int))
    decreases |s|
  {
    if s == "" {
      assert s + [d] == [d];
    } else {
      assert s[0] in s;
      assert (s + [d])[1..] == s[1..] + [d];
      DigitsThenOne(s[1..], d, 10 * acc + (s[0] as int - '0' as int), true);
    }
  }

  lemma {:induction false} DigitsOfDec(n: nat)
    ensures Digits(Dec(n), 0, false) == Some(n)
  {
    if n >= 10 {
      DigitsOfDec(n / 10);
      DigitsThenOne(Dec(n / 10), DigitChar(n % 10), 0, false);
    }
  }

  lemma PlainDec(n: nat)
    ensures Plain(Dec(n))
  {
    assert AllDigits(Dec(n));
  }

  // int(str(n)) == n
  lemma IntOfDec(n: nat)
    ensures PyInt(Dec(n)) == Some(n)
  {
    PlainDec(n);
    TrimPlain(Dec(n));
    DigitsOfDec(n);
    assert Dec(n)[0] in Dec(n);
  }

  lemma DecInjective(m: nat, n: nat)
    requires Dec(m) == Dec(n)
    ensures m == n
  {
    DigitsOfDec(m);
    DigitsOfDec(n);
  }
}
