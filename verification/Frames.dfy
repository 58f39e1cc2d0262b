// The live frame codec: frame_message writes, read_frame finds the next frame in
// a byte stream however much junk precedes it, parse_frame_bytes reads one
// exact frame.
module Frames {
  import opened Basics

  const MAGIC: seq<Byte> := [0x89, 0x49, 0x32, 0x50]
  const PROTOCOL_VERSION: Byte := 3
  const MAX_FRAME_SIZE: nat := 256 * 1024
  const U64: nat := 0x1_0000_0000_0000_0000
  const U32: nat := 0x1_0000_0000

  // The letters UDISFCEKPOXLQYJGZ.
  const FRAME_TYPES: set<Byte> :=
    {0x55, 0x44, 0x49, 0x53, 0x46, 0x43, 0x45, 0x4B, 0x50, 0x4F, 0x58, 0x4C, 0x51, 0x59, 0x4A, 0x47, 0x5A}

  datatype Frame = Frame(kind: Byte, id: nat, payload: seq<Byte>)

  datatype FrameError = TooShort | BadMagic | BadVersion | BadType | BadSize | LengthMismatch

  // ------------------------------------------------------------ big endian

  function Pow256(w: nat): (p: nat)
    ensures p >= 1
  {
    if w == 0 then 1 else 256 * Pow256(w - 1)
  }

  function BigEndian(n: nat, w: nat): (s: seq<Byte>)
    ensures |s| == w
  {
    if w == 0 then [] else BigEndian(n / 256, w - 1) + [n % 256]
  }

  function FromBigEndian(s: seq<Byte>): nat {
    if s == [] then 0 else 256 * FromBigEndian(s[..|s| - 1]) + s[|s| - 1]
  }

  lemma {:induction false} DecodeEncode(n: nat, w: nat)
    requires n < Pow256(w)
    ensures FromBigEndian(BigEndian(n, w)) == n
  {
    if w > 0 {
      DecodeEncode(n / 256, w - 1);
      assert BigEndian(n, w)[..w - 1] == BigEndian(n / 256, w - 1);
    }
  }

  lemma {:induction false} EncodeDecode(s: seq<Byte>)
    ensures BigEndian(FromBigEndian(s), |s|) == s
    ensures FromBigEndian(s) < Pow256(|s|)
  {
    if s != [] {
      EncodeDecode(s[..|s| - 1]);
      assert s == s[..|s| - 1] + [s[|s| - 1]];
    }
  }

  lemma Widths()
    ensures Pow256(8) == U64 && Pow256(4) == U32
  {
    assert Pow256(4) == 256 * Pow256(3) == 0x1_0000_0000;
    assert Pow256(8) == 256 * Pow256(7) == 0x1_0000 * Pow256(6);
  }

  // ---------------------------------------------------------------- writing

  // What frame_message can pack.
  predicate Packable(f: Frame) {
    f.id < U64 && |f.payload| < U32
  }

  predicate Sendable(f: Frame) {
    Packable(f) && f.kind in FRAME_TYPES && |f.payload| <= MAX_FRAME_SIZE
  }

  // The header after MAGIC.
  function Header(f: Frame): (h: seq<Byte>)
    ensures |h| == 14
  {
    [PROTOCOL_VERSION, f.kind] + BigEndian(f.id, 8) + BigEndian(|f.payload|, 4)
  }

  // frame_message
  function FrameBytes(f: Frame): seq<Byte>
    requires Packable(f)
  {
    MAGIC + Header(f) + f.payload
  }

  // ---------------------------------------------------------------- parsing

  datatype Head = Head(kind: Byte, id: nat, length: nat)

  function ParseHeader(h: seq<Byte>): Result<Head, FrameError>
    requires |h| == 14
  {
    if h[0] != PROTOCOL_VERSION then Err(BadVersion)
    else if h[1] !in FRAME_TYPES then Err(BadType)
    else if FromBigEndian(h[10..14]) > MAX_FRAME_SIZE then Err(BadSize)
    else Ok(Head(h[1], FromBigEndian(h[2..10]), FromBigEndian(h[10..14])))
  }

  lemma HeaderParses(f: Frame)
    requires Sendable(f)
    ensures ParseHeader(Header(f)) == Ok(Head(f.kind, f.id, |f.payload|))
  {
    var h := Header(f);
    Widths();
    assert h[2..10] == BigEndian(f.id, 8) && h[10..14] == BigEndian(|f.payload|, 4);
    DecodeEncode(f.id, 8);
    DecodeEncode(|f.payload|, 4);
  }

  lemma ParsedHeaderIsWritten(h: seq<Byte>, f: Frame)
    requires |h| == 14
    requires ParseHeader(h) == Ok(Head(f.kind, f.id, |f.payload|))
    ensures Sendable(f) && Header(f) == h
  {
    Widths();
    EncodeDecode(h[2..10]);
    EncodeDecode(h[10..14]);
    assert h == [h[0], h[1]] + h[2..10] + h[10..14];
  }

  // parse_frame_bytes
  function ParseFrame(b: seq<Byte>): Result<Frame, FrameError> {
    if |b| < 18 then Err(TooShort)
    else if b[..4] != MAGIC then Err(BadMagic)
    else match ParseHeader(b[4..18])
      case Err(e) => Err(e)
      case Ok(head) =>
        if |b| != 18 + head.length then Err(LengthMismatch) else Ok(Frame(head.kind, head.id, b[18..]))
  }

  // Parsing succeeds on exactly the written frames, with what was written.
  lemma ParseInvertsWrite(b: seq<Byte>, f: Frame)
    ensures ParseFrame(b) == Ok(f) <==> Sendable(f) && b == FrameBytes(f)
  {
    if Sendable(f) && b == FrameBytes(f) {
      assert b[..4] == MAGIC && b[4..18] == Header(f) && b[18..] == f.payload;
      HeaderParses(f);
    }
    if ParseFrame(b) == Ok(f) {
      ParsedHeaderIsWritten(b[4..18], f);
      assert b == b[..4] + b[4..18] + b[18..];
    }
  }

  // What is wrong with a frame that was not written by frame_message, by the fields it
  // was put together from: the first fault is the one reported.
  lemma FrameVerdict(start: seq<Byte>, version: Byte, kind: Byte, id: nat, length: nat, payload: seq<Byte>)
    requires |start| == 4 && id < U64 && length < U32
    ensures ParseFrame(start + ([version, kind] + BigEndian(id, 8) + BigEndian(length, 4)) + payload)
         == if start != MAGIC then Err(BadMagic)
            else if version != 3 then Err(BadVersion)
            else if kind !in FRAME_TYPES then Err(BadType)
            else if length > 256 * 1024 then Err(BadSize)
            else if length != |payload| then Err(LengthMismatch)
            else Ok(Frame(kind, id, payload))
  {
    var h := [version, kind] + BigEndian(id, 8) + BigEndian(length, 4);
    var b := start + h + payload;
    assert b[..4] == start && b[4..18] == h && b[18..] == payload;
    Widths();
    assert h[2..10] == BigEndian(id, 8) && h[10..14] == BigEndian(length, 4);
    DecodeEncode(id, 8);
    DecodeEncode(length, 4);
  }

  lemma ShortVerdict(b: seq<Byte>)
    ensures ParseFrame(b) == Err(TooShort) <==> |b| < 18
  {
    hide FromBigEndian;
  }

  // ---------------------------------------------------------------- reading

  predicate MagicAt(s: seq<Byte>, i: nat) {
    i + 4 <= |s| && s[i..i + 4] == MAGIC
  }

  // The first occurrence of MAGIC from i on, or the length of the stream.
  function FindMagic(s: seq<Byte>, i: nat): (k: nat)
    requires i <= |s|
    ensures i <= k <= |s|
    ensures forall j :: i <= j < k ==> !MagicAt(s, j)
    ensures k < |s| ==> MagicAt(s, k)
    decreases |s| - i
  {
    if i == |s| || MagicAt(s, i) then i else FindMagic(s, i + 1)
  }

  datatype ReadResult = Got(frame: Frame, rest: seq<Byte>) | Bad(error: FrameError, rest: seq<Byte>) | Eof

  function AfterMagic(s: seq<Byte>): ReadResult {
    if |s| < 14 then Eof
    else match ParseHeader(s[..14])
      case Err(e) => Bad(e, s[14..])
      case Ok(head) =>
        if |s| < 14 + head.length then Eof
        else Got(Frame(head.kind, head.id, s[14..14 + head.length]), s[14 + head.length..])
  }

  // read_frame over everything the stream still holds.
  function Read(s: seq<Byte>): ReadResult {
    var k := FindMagic(s, 0);
    if k == |s| then Eof else AfterMagic(s[k + 4..])
  }

  predicate MagicFree(junk: seq<Byte>) {
    forall i :: 0 <= i < |junk| ==> !MagicAt(junk, i)
  }

  lemma FirstMagic(s: seq<Byte>, i: nat, k: nat)
    requires i <= k <= |s| && (k < |s| ==> MagicAt(s, k))
    requires forall j :: i <= j < k ==> !MagicAt(s, j)
    ensures FindMagic(s, i) == k
    decreases k - i
  {
    if i < k {
      FirstMagic(s, i + 1, k);
    }
  }

  // MAGIC has no border, so it is first found behind junk exactly if the junk
  // itself does not contain it.
  lemma FoundBehindJunk(junk: seq<Byte>, rest: seq<Byte>)
    ensures FindMagic(junk + MAGIC + rest, 0) == |junk| <==> MagicFree(junk)
  {
    var s := junk + MAGIC + rest;
    assert s[|junk|..|junk| + 4] == MAGIC;
    assert MagicAt(s, |junk|);
    forall i | 0 <= i < |junk|
      ensures MagicAt(s, i) <==> MagicAt(junk, i)
    {
      if i + 4 <= |junk| {
        assert s[i..i + 4] == junk[i..i + 4];
      } else {
        assert s[i..i + 4][|junk| - i] == MAGIC[0];
      }
    }
    if MagicFree(junk) {
      FirstMagic(s, 0, |junk|);
    }
  }

  lemma ReadsOneFrame(junk: seq<Byte>, f: Frame, rest: seq<Byte>)
    requires MagicFree(junk) && Sendable(f)
    ensures Read(junk + FrameBytes(f) + rest) == Got(f, rest)
  {
    var s := junk + FrameBytes(f) + rest;
    var tail := Header(f) + f.payload + rest;
    assert s == junk + MAGIC + tail;
    FoundBehindJunk(junk, tail);
    assert s[|junk| + 4..] == tail;
    assert tail[..14] == Header(f) && tail[14..14 + |f.payload|] == f.payload && tail[14 + |f.payload|..] == rest;
    HeaderParses(f);
  }

  // Behind a header that is refused, reading goes on with the very next byte.
  lemma BadHeaderIsPassed(junk: seq<Byte>, header: seq<Byte>, rest: seq<Byte>)
    requires MagicFree(junk) && |header| == 14 && ParseHeader(header).Err?
    ensures Read(junk + (MAGIC + header) + rest) == Bad(ParseHeader(header).error, rest)
  {
    var s := junk + (MAGIC + header) + rest;
    assert s == junk + MAGIC + (header + rest);
    FoundBehindJunk(junk, header + rest);
    assert s[|junk| + 4..] == header + rest;
    assert (header + rest)[..14] == header && (header + rest)[14..] == rest;
  }

  // What may come down a stream: a frame, or a header that no reader accepts.
  datatype Item = Item(junk: seq<Byte>, frame: Frame) | Broken(junk: seq<Byte>, header: seq<Byte>)

  predicate Clean(items: seq<Item>) {
    forall x :: x in items ==> MagicFree(x.junk) && Comes(x)
  }

  predicate Comes(x: Item) {
    match x
    case Item(_, frame) => Sendable(frame)
    case Broken(_, header) => |header| == 14 && ParseHeader(header).Err?
  }

  function ItemBytes(x: Item): seq<Byte>
    requires Comes(x)
  {
    match x
    case Item(_, frame) => FrameBytes(frame)
    case Broken(_, header) => MAGIC + header
  }

  function Stream(items: seq<Item>): seq<Byte>
    requires Clean(items)
  {
    if items == [] then [] else items[0].junk + ItemBytes(items[0]) + Stream(items[1..])
  }

  // A receive loop that calls read_frame n times: what is refused is passed over.
  function ReadMany(s: seq<Byte>, n: nat): seq<Frame> {
    if n == 0 then [] else
      match Read(s)
      case Got(f, rest) => [f] + ReadMany(rest, n - 1)
      case Bad(_, rest) => ReadMany(rest, n - 1)
      case Eof => []
  }

  function FramesOf(items: seq<Item>): seq<Frame> {
    if items == [] then []
    else (if items[0].Item? then [items[0].frame] else []) + FramesOf(items[1..])
  }

  // Whatever MAGIC-free junk and refused headers lie between them, exactly the sent
  // frames come out.
  lemma {:induction false} StreamRoundTrip(items: seq<Item>, tail: seq<Byte>)
    requires Clean(items)
    ensures ReadMany(Stream(items) + tail, |items|) == FramesOf(items)
  {
    hide FrameBytes, Read, MagicFree, Sendable, ParseHeader, Comes, ItemBytes;
    if items != [] {
      assert items[0] in items;
      StreamStarts(items, tail);
      ReadsOneItem(items[0], Stream(items[1..]) + tail);
      StreamRoundTrip(items[1..], tail);
    }
  }

  lemma ReadsOneItem(x: Item, rest: seq<Byte>)
    requires MagicFree(x.junk) && Comes(x)
    ensures var r := Read(x.junk + ItemBytes(x) + rest);
            if x.Item? then r == Got(x.frame, rest) else r.Bad? && r.rest == rest
  {
    hide FrameBytes, Read, MagicFree, Sendable, ParseHeader;
    match x
    case Item(junk, frame) => ReadsOneFrame(junk, frame, rest);
    case Broken(junk, header) => BadHeaderIsPassed(junk, header, rest);
  }

  lemma StreamStarts(items: seq<Item>, tail: seq<Byte>)
    requires Clean(items) && items != []
    ensures Stream(items) + tail
         == items[0].junk + ItemBytes(items[0]) + (Stream(items[1..]) + tail)
  {
    hide ItemBytes, MagicFree, Comes;
  }

  // ------------------------------------------------------- the reading loop

  class Reader {
    const input: seq<Byte>
    var pos: nat

    constructor (input: seq<Byte>)
      ensures this.input == input && pos == 0
    {
      this.input := input;
      pos := 0;
    }

    predicate Valid()
      reads this
    {
      pos <= |input|
    }

    // MAGIC search a byte at a time, keeping only the last four bytes.
    method SkipToMagic() returns (found: bool)
      requires Valid()
      modifies this
      ensures Valid()
      ensures var k := FindMagic(input, old(pos));
              if found then k < |input| && pos == k + 4 else k == |input| && pos == |input|
    {
      hide FindMagic, MagicAt, IsTail;
      var buffer: seq<Byte> := [];
      TailStarts(input, pos);
      while pos < |input|
        invariant old(pos) <= pos <= |input|
        invariant IsTail(input, old(pos), pos, buffer)
        invariant forall j :: old(pos) <= j && j + 4 <= pos ==> !MagicAt(input, j)
      {
        TailStep(input, old(pos), pos, buffer);
        buffer := buffer + [input[pos]];
        pos := pos + 1;
        if EndsInMagic(buffer) {
          FirstMagic(input, old(pos), pos - 4);
          return true;
        }
        if |buffer| > 4 {
          buffer := buffer[|buffer| - 4..];
        }
      }
      MagicNeedsFour(input);
      FirstMagic(input, old(pos), pos);
      return false;
    }

    method ReadFrame() returns (r: ReadResult)
      requires Valid()
      modifies this
      ensures Valid()
      ensures r == Read(old(input[pos..]))
      ensures r != Eof ==> input[pos..] == r.rest
    {
      hide AfterMagic, ParseHeader, FindMagic, MagicAt;
      var start := pos;
      FindInSuffix(input, start);
      var found := SkipToMagic();
      if !found {
        return Eof;
      }
      assert input[start..][FindMagic(input[start..], 0) + 4..] == input[pos..];
      AfterMagicAt(input, pos);
      if |input| - pos < 14 {
        pos := |input|;
        return Eof;
      }
      var header := input[pos..pos + 14];
      pos := pos + 14;
      match ParseHeader(header) {
        case Err(e) => return Bad(e, input[pos..]);
        case Ok(head) =>
          if |input| - pos < head.length {
            pos := |input|;
            return Eof;
          }
          var payload := input[pos..pos + head.length];
          pos := pos + head.length;
          return Got(Frame(head.kind, head.id, payload), input[pos..]);
      }
    }
  }

  // The frame behind the magic, by positions in the whole input.
  lemma AfterMagicAt(input: seq<Byte>, pos: nat)
    requires pos <= |input|
    ensures AfterMagic(input[pos..])
         == if |input| - pos < 14 then Eof
            else match ParseHeader(input[pos..pos + 14])
              case Err(e) => Bad(e, input[pos + 14..])
              case Ok(head) =>
                var (body, end) := (pos + 14, pos + 14 + head.length);
                if end > |input| then Eof else Got(Frame(head.kind, head.id, input[body..end]), input[end..])
  {
    hide ParseHeader;
    var s := input[pos..];
    if |s| >= 14 {
      assert s[..14] == input[pos..pos + 14] && s[14..] == input[pos + 14..];
      match ParseHeader(s[..14]) {
        case Err(_) =>
        case Ok(head) =>
          if 14 + head.length <= |s| {
            SliceOfSuffix(input, pos, 14, 14 + head.length);
          }
      }
    }
  }

  lemma SliceOfSuffix(s: seq<Byte>, n: nat, i: nat, j: nat)
    requires n <= |s| && i <= j <= |s| - n
    ensures s[n..][i..j] == s[n + i..n + j] && s[n..][j..] == s[n + j..]
  {
  }

  lemma MagicNeedsFour(s: seq<Byte>)
    ensures forall j :: 0 <= j && j + 4 > |s| ==> !MagicAt(s, j)
  {
  }

  predicate EndsInMagic(buffer: seq<Byte>) {
    |buffer| >= 4 && buffer[|buffer| - 4..] == MAGIC
  }

  // The last bytes read since start, at most four.
  predicate IsTail(s: seq<Byte>, start: nat, pos: nat, buffer: seq<Byte>) {
    && start <= pos <= |s| && |buffer| == Min(4, pos - start)
    && forall i :: 0 <= i < |buffer| ==> buffer[i] == s[pos - |buffer| + i]
  }

  lemma TailStarts(s: seq<Byte>, start: nat)
    requires start <= |s|
    ensures IsTail(s, start, start, [])
  {
  }

  predicate Spells(a: Byte, b: Byte, c: Byte, d: Byte) {
    a == MAGIC[0] && b == MAGIC[1] && c == MAGIC[2] && d == MAGIC[3]
  }

  lemma MagicSpelled(s: seq<Byte>, i: nat)
    requires i + 4 <= |s|
    ensures s[i..i + 4] == MAGIC <==> Spells(s[i], s[i + 1], s[i + 2], s[i + 3])
  {
    var four := s[i..i + 4];
    assert four[0] == s[i] && four[1] == s[i + 1] && four[2] == s[i + 2] && four[3] == s[i + 3];
  }

  function LastFour(buffer: seq<Byte>): seq<Byte> {
    if |buffer| > 4 then buffer[|buffer| - 4..] else buffer
  }

  lemma TailStep(s: seq<Byte>, start: nat, pos: nat, buffer: seq<Byte>)
    requires IsTail(s, start, pos, buffer) && pos < |s|
    ensures var longer := buffer + [s[pos]];
            && (EndsInMagic(longer) <==> pos - 3 >= start && MagicAt(s, pos - 3))
            && IsTail(s, start, pos + 1, LastFour(longer))
  {
    hide EndsInMagic, MagicAt, LastFour;
    var longer := buffer + [s[pos]];
    KeptIsTail(s, start, pos + 1, longer);
    if |longer| >= 4 {
      TailSpells(s, pos + 1, longer);
    } else {
      TooShortForMagic(longer);
    }
  }

  lemma TooShortForMagic(buffer: seq<Byte>)
    requires |buffer| < 4
    ensures !EndsInMagic(buffer)
  {
  }

  lemma TailSpells(s: seq<Byte>, pos: nat, longer: seq<Byte>)
    requires 4 <= |longer| <= pos <= |s|
    requires forall i :: 0 <= i < |longer| ==> longer[i] == s[pos - |longer| + i]
    ensures EndsInMagic(longer) <==> MagicAt(s, pos - 4)
  {
    hide Spells;
    var n := |longer| - 4;
    MagicSpelled(longer, n);
    MagicSpelled(s, pos - 4);
    assert longer[n..] == longer[n..n + 4];
    assert longer[n] == s[pos - 4] && longer[n + 1] == s[pos - 3];
    assert longer[n + 2] == s[pos - 2] && longer[n + 3] == s[pos - 1];
  }

  lemma KeptIsTail(s: seq<Byte>, start: nat, pos: nat, longer: seq<Byte>)
    requires start <= pos <= |s| && |longer| <= pos - start && (|longer| == pos - start || 4 <= |longer|)
    requires forall i :: 0 <= i < |longer| ==> longer[i] == s[pos - |longer| + i]
    ensures IsTail(s, start, pos, LastFour(longer))
  {
    var kept := LastFour(longer);
    forall i | 0 <= i < |kept|
      ensures kept[i] == s[pos - |kept| + i]
    {
      var j := |longer| - |kept| + i;
      assert kept[i] == longer[j];
    }
  }

  lemma FindInSuffix(s: seq<Byte>, start: nat)
    requires start <= |s|
    ensures FindMagic(s[start..], 0) == FindMagic(s, start) - start
  {
    hide MagicAt;
    var t := s[start..];
    var k := FindMagic(t, 0);
    MagicInSuffix(s, start, k);
    forall j | start <= j < start + k
      ensures !MagicAt(s, j)
    {
      MagicInSuffix(s, start, j - start);
    }
    FirstMagic(s, start, start + k);
  }

  lemma MagicInSuffix(s: seq<Byte>, start: nat, i: nat)
    requires start <= |s|
    ensures MagicAt(s[start..], i) <==> MagicAt(s, start + i)
  {
    if i + 4 <= |s[start..]| {
      assert s[start..][i..i + 4] == s[start + i..start + i + 4];
    }
  }
}
