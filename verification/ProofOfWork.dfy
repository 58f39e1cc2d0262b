// The proof of work on a PUT: the client searches a counter, both servers check
// it, each with its own bit test. The hash is a parameter.
module ProofOfWork {
  import opened Basics
  import opened Text
  import opened ByteText
  import Frames

  const ZERO_BITS: nat := 20
  const MAX_KEY_LEN: nat := 128
  const PREFIX: string := "POWv1"

  type Digest = d: seq<Byte> | |d| == 32 witness seq(32, (i: nat) => 0)

  type Hash = seq<Byte> -> Digest

  // ------------------------------------------------------------------ bits

  function Pow2(n: nat): (p: nat)
    ensures p >= 1
  {
    if n == 0 then 1 else 2 * Pow2(n - 1)
  }

  // x & y
  function And(x: nat, y: nat): nat {
    if x == 0 || y == 0 then 0 else 2 * And(x / 2, y / 2) + (x % 2) * (y % 2)
  }

  function Shl(x: nat, n: nat): nat {
    x * Pow2(n)
  }

  lemma {:induction false} AndLowMask(x: nat, n: nat)
    requires x < Pow2(n)
    ensures And(x, Pow2(n) - 1) == x
  {
    if n > 0 && x > 0 {
      AndLowMask(x / 2, n - 1);
      assert (Pow2(n) - 1) / 2 == Pow2(n - 1) - 1 && (Pow2(n) - 1) % 2 == 1;
    }
  }

  // A mask of ones from bit k up to bit n sees exactly the numbers from 2^k on.
  lemma {:induction false} AndHighMask(x: nat, n: nat, k: nat)
    requires x < Pow2(n) && k <= n && Pow2(k) <= Pow2(n)
    ensures And(x, Pow2(n) - Pow2(k)) == 0 <==> x < Pow2(k)
  {
    if k == 0 {
      AndLowMask(x, n);
    } else {
      AndHighMask(x / 2, n - 1, k - 1);
      var m := Pow2(n - 1) - Pow2(k - 1);
      assert Pow2(n) - Pow2(k) == 2 * m;
      assert (2 * m) / 2 == m && (2 * m) % 2 == 0;
    }
  }

  lemma {:induction false} Pow2Grows(k: nat, n: nat)
    requires k <= n
    ensures Pow2(k) <= Pow2(n)
    decreases n - k
  {
    if k < n {
      Pow2Grows(k + 1, n);
    }
  }

  lemma Pow2PlusEight(n: nat)
    ensures Pow2(n + 8) == 256 * Pow2(n)
  {
    assert Pow2(n + 2) == 4 * Pow2(n);
    assert Pow2(n + 4) == 4 * Pow2(n + 2);
    assert Pow2(n + 6) == 4 * Pow2(n + 4);
  }

  lemma {:induction false} Pow2OfBytes(w: nat, k: nat)
    ensures Pow2(8 * w + k) == Pow2(k) * Frames.Pow256(w)
  {
    if w > 0 {
      Pow2OfBytes(w - 1, k);
      Pow2PlusEight(8 * (w - 1) + k);
    }
  }

  // ------------------------------------------------------------- bit tests

  predicate Zeros(s: seq<Byte>) {
    forall i :: 0 <= i < |s| ==> s[i] == 0
  }

  // deaddrop.py _pow_ok and deaddrop-server.py pow_ok: the mask keeps the bits
  // that the shift moved above the byte.
  predicate PythonOk(digest: Digest, zeroBits: nat)
    requires zeroBits <= 256
  {
    var (zeroBytes, remBits) := (zeroBits / 8, zeroBits % 8);
    Zeros(digest[..zeroBytes]) && (remBits == 0 || And(digest[zeroBytes], Shl(0xFF, 8 - remBits)) == 0)
  }

  // main.rs pow_ok: the mask is a u8.
  predicate RustOk(digest: Digest, zeroBits: nat)
    requires zeroBits <= 256
  {
    var (zeroBytes, remBits) := (zeroBits / 8, zeroBits % 8);
    && |digest| > zeroBytes
    && Zeros(digest[..zeroBytes])
    && (remBits == 0 || And(digest[zeroBytes], Shl(0xFF, 8 - remBits) % 0x100) == 0)
  }

  lemma PythonMask(x: Byte, k: nat)
    requires k <= 8
    ensures And(x, Shl(0xFF, k)) == 0 <==> x < Pow2(k)
  {
    Pow2PlusEight(k);
    Pow2Grows(8, k + 8);
    assert Pow2(8) == 256 by { Pow2PlusEight(0); }
    Pow2Grows(k, k + 8);
    AndHighMask(x, k + 8, k);
    assert Shl(0xFF, k) == Pow2(k + 8) - Pow2(k);
  }

  lemma RustMask(x: Byte, k: nat)
    requires k <= 8
    ensures And(x, Shl(0xFF, k) % 0x100) == 0 <==> x < Pow2(k)
  {
    assert Pow2(8) == 256 by { Pow2PlusEight(0); }
    Pow2Grows(k, 8);
    AndHighMask(x, 8, k);
    ByteOfMask(Pow2(k));
  }

  lemma ByteOfMask(p: nat)
    requires 1 <= p <= 0x100
    ensures (0xFF * p) % 0x100 == 0x100 - p
  {
    assert 0xFF * p == 0x100 * (p - 1) + (0x100 - p);
  }

  // ------------------------------------------------------- as one number

  lemma {:induction false} ZeroIff(s: seq<Byte>)
    ensures Frames.FromBigEndian(s) == 0 <==> Zeros(s)
  {
    if s != [] {
      ZeroIff(s[..|s| - 1]);
      assert forall i :: 0 <= i < |s| - 1 ==> s[..|s| - 1][i] == s[i];
    }
  }

  // Below c units of the byte after the first z: those z are zero and it is below c.
  lemma {:induction false} LeadingIff(s: seq<Byte>, z: nat, c: nat)
    requires z < |s| && 1 <= c <= 256
    ensures Frames.FromBigEndian(s) < c * Frames.Pow256(|s| - z - 1) <==> Zeros(s[..z]) && s[z] < c
  {
    var front := s[..|s| - 1];
    if z == |s| - 1 {
      ZeroIff(front);
      assert Frames.Pow256(0) == 1;
    } else {
      LeadingIff(front, z, c);
      assert front[..z] == s[..z] && front[z] == s[z];
      var unit := Frames.Pow256(|front| - z - 1);
      assert c * Frames.Pow256(|s| - z - 1) == 256 * (c * unit);
    }
  }

  // The test is a bound on the digest read as one big-endian number.
  lemma PowOkIff(digest: Digest, zeroBits: nat)
    requires zeroBits <= 256
    ensures PythonOk(digest, zeroBits) <==> Frames.FromBigEndian(digest) < Pow2(256 - zeroBits)
  {
    hide And, Shl;
    var (z, rem) := (zeroBits / 8, zeroBits % 8);
    if z == 32 {
      ZeroIff(digest);
      assert digest[..32] == digest;
      assert Pow2(0) == 1;
    } else {
      PythonMask(digest[z], 8 - rem);
      Pow2OfBytes(31 - z, 8 - rem);
      assert 256 - zeroBits == 8 * (31 - z) + (8 - rem);
      assert Pow2(8) == 256 by { Pow2PlusEight(0); }
      Pow2Grows(8 - rem, 8);
      LeadingIff(digest, z, Pow2(8 - rem));
    }
  }

  // The two servers agree on every digest and difficulty, but for the zero digest
  // at full difficulty, which only the Python one accepts.
  lemma ServersAgreeIff(digest: Digest, zeroBits: nat)
    requires zeroBits <= 256
    ensures PythonOk(digest, zeroBits) == RustOk(digest, zeroBits) <==> zeroBits < 256 || !Zeros(digest)
  {
    hide And, Shl;
    var (z, rem) := (zeroBits / 8, zeroBits % 8);
    if z == 32 {
      assert digest[..32] == digest;
    } else {
      PythonMask(digest[z], 8 - rem);
      RustMask(digest[z], 8 - rem);
    }
  }

  // -------------------------------------------------------------- material

  // is_valid_key
  predicate KeyChar(c: char) {
    'a' <= c <= 'z' || 'A' <= c <= 'Z' || '0' <= c <= '9' || c == '_' || c == '-'
  }

  predicate ValidKey(key: string) {
    key != "" && |key| <= MAX_KEY_LEN && forall c :: c in key ==> KeyChar(c)
  }

  function Material(key: string, size: nat, blob: seq<Byte>, counter: nat): seq<Byte> {
    Encode(PREFIX) + [BAR]
    + (Encode(key) + [BAR] + (Encode(Dec(size)) + [BAR] + (blob + [BAR] + Encode(Dec(counter)))))
  }

  lemma KeyIsField(key: string)
    requires ValidKey(key)
    ensures FieldText(key)
  {
  }

  // Work done for one request is of no use for any other.
  lemma MaterialInjective(key: string, blob: seq<Byte>, counter: nat, key': string, blob': seq<Byte>, counter': nat)
    requires ValidKey(key) && ValidKey(key')
    ensures Material(key, |blob|, blob, counter) == Material(key', |blob'|, blob', counter')
       <==> key == key' && blob == blob' && counter == counter'
  {
    hide Encode, FieldText, Dec, ValidKey;
    if Material(key, |blob|, blob, counter) == Material(key', |blob'|, blob', counter') {
      var (c, c') := (Encode(Dec(counter)), Encode(Dec(counter')));
      var (b, b') := (blob + [BAR] + c, blob' + [BAR] + c');
      var (s, s') := (Encode(Dec(|blob|)) + [BAR] + b, Encode(Dec(|blob'|)) + [BAR] + b');
      FixedField(Encode(PREFIX), Encode(key) + [BAR] + s, Encode(PREFIX), Encode(key') + [BAR] + s');
      KeyIsField(key);
      KeyIsField(key');
      FirstText(key, s, key', s');
      SizeThenBlob(blob, c, blob', c');
      CountersEqual(counter, counter');
    }
  }

  lemma SizeThenBlob(blob: seq<Byte>, c: seq<Byte>, blob': seq<Byte>, c': seq<Byte>)
    requires Encode(Dec(|blob|)) + [BAR] + (blob + [BAR] + c) == Encode(Dec(|blob'|)) + [BAR] + (blob' + [BAR] + c')
    ensures blob == blob' && c == c'
  {
    hide Encode, FieldText, Dec;
    DecIsField(|blob|);
    DecIsField(|blob'|);
    FirstText(Dec(|blob|), blob + [BAR] + c, Dec(|blob'|), blob' + [BAR] + c');
    DecInjective(|blob|, |blob'|);
    FixedField(blob, c, blob', c');
  }

  lemma CountersEqual(m: nat, n: nat)
    requires Encode(Dec(m)) == Encode(Dec(n))
    ensures m == n
  {
    hide Encode, Dec;
    DecIsField(m);
    DecIsField(n);
    EncodeInjective(Dec(m), Dec(n));
    DecInjective(m, n);
  }

  // ---------------------------------------------------------------- search

  // verify_put_pow of the two servers
  predicate PythonAccepts(sha: Hash, key: string, size: nat, blob: seq<Byte>, counter: nat) {
    PythonOk(sha(Material(key, size, blob, counter)), ZERO_BITS)
  }

  predicate RustAccepts(sha: Hash, key: string, size: nat, blob: seq<Byte>, counter: nat) {
    RustOk(sha(Material(key, size, blob, counter)), ZERO_BITS)
  }

  // The search ends if any counter works; it returns the least, and both servers
  // accept it.
  method FindPowCounter(sha: Hash, key: string, blob: seq<Byte>) returns (counter: nat)
    requires exists c: nat :: PythonAccepts(sha, key, |blob|, blob, c)
    ensures PythonAccepts(sha, key, |blob|, blob, counter) && RustAccepts(sha, key, |blob|, blob, counter)
    ensures Frames.FromBigEndian(sha(Material(key, |blob|, blob, counter))) < Pow2(236)
    ensures forall c :: 0 <= c < counter ==> !PythonAccepts(sha, key, |blob|, blob, c)
  {
    hide Material, PythonOk, RustOk, Pow2;
    ghost var found: nat :| PythonAccepts(sha, key, |blob|, blob, found);
    counter := 0;
    while true
      invariant counter <= found
      invariant forall c :: 0 <= c < counter ==> !PythonAccepts(sha, key, |blob|, blob, c)
      decreases found - counter
    {
      var digest := sha(Material(key, |blob|, blob, counter));
      if PythonOk(digest, ZERO_BITS) {
        ServersAgreeIff(digest, ZERO_BITS);
        PowOkIff(digest, ZERO_BITS);
        return;
      }
      counter := counter + 1;
    }
  }
}
