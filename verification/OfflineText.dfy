// The offline state file: save_offline_state writes it, load_offline_state reads
// it back, and the two agree on every state the client can hold.
module OfflineText {
  import opened Basics
  import opened Text
  import opened OfflineState

  datatype Profile = Profile(secret: seq<Byte>, send: nat, recv: RecvState)

  // ------------------------------------------------------- lines and fields

  datatype Key = Secret | SendIndex | RecvBase | DropWindow | Consumed | KnownNext | HighestSeen | Missing | Skipped | Probe

  function Name(k: Key): string {
    match k
    case Secret => "offline_shared_secret"
    case SendIndex => "drop_send_index"
    case RecvBase => "drop_recv_base"
    case DropWindow => "drop_window"
    case Consumed => "consumed_drop_recv"
    case KnownNext => "known_remote_next_send"
    case HighestSeen => "highest_authenticated_recv_index"
    case Missing => "missing_drop_recv"
    case Skipped => "skipped_drop_recv"
    case Probe => "forward_probe_index"
  }

  predicate CleanKey(key: string) {
    Plain(key) && '=' !in key
  }

  lemma IndexNamesAreClean()
    ensures CleanKey(Name(Secret)) && CleanKey(Name(SendIndex))
    ensures CleanKey(Name(RecvBase)) && CleanKey(Name(DropWindow))
  {
  }

  lemma LongNamesAreClean()
    ensures CleanKey(Name(KnownNext))
  {
  }

  lemma HighestNameIsClean()
    ensures CleanKey(Name(HighestSeen))
  {
  }

  lemma ListNamesAreClean()
    ensures CleanKey(Name(Consumed)) && CleanKey(Name(Missing)) && CleanKey(Name(Skipped))
  {
  }

  lemma ProbeNameIsClean()
    ensures CleanKey(Name(Probe))
  {
  }

  lemma NameIsClean(k: Key)
    ensures CleanKey(Name(k))
  {
    IndexNamesAreClean();
    LongNamesAreClean();
    HighestNameIsClean();
    ListNamesAreClean();
    ProbeNameIsClean();
  }

  function Length(k: Key): nat {
    match k
    case Secret => 21
    case SendIndex => 15
    case RecvBase => 14
    case DropWindow => 11
    case Consumed => 18
    case KnownNext => 22
    case HighestSeen => 32
    case Missing => 17
    case Skipped => 17
    case Probe => 19
  }

  lemma NameLength(k: Key)
    ensures |Name(k)| == Length(k)
  {
  }

  lemma NamesDiffer(a: Key, b: Key)
    requires a != b
    ensures Name(a) != Name(b)
  {
    NameLength(a);
    NameLength(b);
    assert Name(Missing)[0] != Name(Skipped)[0];
  }

  datatype Field = Field(key: Key, value: string)

  function RenderFields(fields: seq<Field>): string {
    if fields == [] then ""
    else Name(fields[0].key) + ['='] + fields[0].value + ['\n'] + RenderFields(fields[1..])
  }

  function AbsorbLine(data: map<string, string>, raw: string): map<string, string> {
    var line := Trim(raw);
    if line == "" || '=' !in line then data
    else var i := IndexOf(line, '='); data[Trim(line[..i]) := Trim(line[i + 1..])]
  }

  function ParseLines(lines: seq<string>, data: map<string, string>): map<string, string> {
    if lines == [] then data else ParseLines(lines[1..], AbsorbLine(data, lines[0]))
  }

  function Parse(text: string): map<string, string> {
    ParseLines(Split(text, '\n'), map[])
  }

  function Assigned(fields: seq<Field>, data: map<string, string>): map<string, string> {
    if fields == [] then data else Assigned(fields[1..], data[Name(fields[0].key) := fields[0].value])
  }

  lemma LineOfField(key: string, value: string, data: map<string, string>)
    requires CleanKey(key) && Plain(value)
    ensures AbsorbLine(data, key + ['='] + value) == data[key := value]
    ensures '\n' !in key + ['='] + value
  {
    var line := key + ['='] + value;
    TrimPlain(line);
    TrimPlain(key);
    TrimPlain(value);
    assert line[..|key|] == key && line[|key|] == '=';
    IndexOfUnique(line, '=', |key|);
    assert line[|key| + 1..] == value;
    assert IsSpace('\n');
  }

  lemma {:induction false} ParseOfRender(fields: seq<Field>, data: map<string, string>)
    requires forall f :: f in fields ==> Plain(f.value)
    ensures ParseLines(Split(RenderFields(fields), '\n'), data) == Assigned(fields, data)
  {
    if fields == [] {
      assert AbsorbLine(data, "") == data;
    } else {
      var key, value := Name(fields[0].key), fields[0].value;
      assert fields[0] in fields;
      NameIsClean(fields[0].key);
      LineOfField(key, value, data);
      SplitFirst(key + ['='] + value, RenderFields(fields[1..]), '\n');
      ParseOfRender(fields[1..], data[key := value]);
    }
  }

  predicate DistinctKeys(fields: seq<Field>) {
    forall i, j :: 0 <= i < j < |fields| ==> fields[i].key != fields[j].key
  }

  lemma {:induction false} AssignedKeeps(fields: seq<Field>, data: map<string, string>, k: Key)
    requires forall f :: f in fields ==> f.key != k
    ensures Get(Assigned(fields, data), Name(k)) == Get(data, Name(k))
  {
    if fields != [] {
      assert fields[0] in fields;
      NamesDiffer(fields[0].key, k);
      AssignedKeeps(fields[1..], data[Name(fields[0].key) := fields[0].value], k);
    }
  }

  lemma {:induction false} AssignedHolds(fields: seq<Field>, data: map<string, string>, i: nat)
    requires DistinctKeys(fields) && i < |fields|
    ensures Get(Assigned(fields, data), Name(fields[i].key)) == fields[i].value
  {
    var data' := data[Name(fields[0].key) := fields[0].value];
    if i == 0 {
      AssignedKeeps(fields[1..], data', fields[0].key);
    } else {
      AssignedHolds(fields[1..], data', i - 1);
    }
  }

  function Get(data: map<string, string>, key: string): string {
    if key in data then data[key] else ""
  }

  // ------------------------------------------------------------------ values

  // parse_offline_u64
  function ParseU64(s: string): Option<nat> {
    match PyInt(s)
    case Some(i) => if 0 <= i <= MAX_U64 then Some(i) else None
    case None => None
  }

  function ParseU64Or(s: string, default: nat): nat {
    match ParseU64(s)
    case Some(n) => n
    case None => default
  }

  function DecInt(i: int): string {
    if i < 0 then ['-'] + Dec(-i) else Dec(i)
  }

  lemma U64OfDec(n: nat)
    requires n <= MAX_U64
    ensures ParseU64(Dec(n)) == Some(n) && Plain(Dec(n)) && ',' !in Dec(n) && ':' !in Dec(n)
  {
    IntOfDec(n);
    PlainDec(n);
  }

  function HexDigit(d: nat): (c: char)
    requires d < 16
    ensures !IsSpace(c) && HexValue(c) == Some(d)
  {
    if d < 10 then ('0' as int + d) as char else ('a' as int + d - 10) as char
  }

  function HexValue(c: char): Option<nat> {
    if '0' <= c <= '9' then Some(c as int - '0' as int)
    else if 'a' <= c <= 'f' then Some(c as int - 'a' as int + 10)
    else if 'A' <= c <= 'F' then Some(c as int - 'A' as int + 10)
    else None
  }

  function Hex(bytes: seq<Byte>): (s: string)
    ensures Plain(s)
  {
    if bytes == [] then "" else [HexDigit(bytes[0] / 16), HexDigit(bytes[0] % 16)] + Hex(bytes[1..])
  }

  // bytes.fromhex, which skips white space between bytes.
  function FromHex(s: string): Option<seq<Byte>>
    decreases |s|
  {
    if s == "" then Some([])
    else if IsSpace(s[0]) then FromHex(s[1..])
    else if |s| < 2 || HexValue(s[0]).None? || HexValue(s[1]).None? then None
    else match FromHex(s[2..])
      case Some(rest) => Some([HexByte(HexValue(s[0]).value, HexValue(s[1]).value)] + rest)
      case None => None
  }

  function HexByte(high: nat, low: nat): Byte {
    (16 * high + low) % 256
  }

  lemma {:induction false} HexRoundTrip(bytes: seq<Byte>)
    ensures FromHex(Hex(bytes)) == Some(bytes)
  {
    if bytes != [] {
      HexRoundTrip(bytes[1..]);
      var b := bytes[0];
      HexStep(HexDigit(b / 16), HexDigit(b % 16), Hex(bytes[1..]), bytes[1..]);
      assert HexByte(b / 16, b % 16) == b;
      assert bytes == [b] + bytes[1..];
    }
  }

  lemma HexStep(high: char, low: char, s: string, rest: seq<Byte>)
    requires !IsSpace(high) && HexValue(high).Some? && HexValue(low).Some?
    requires FromHex(s) == Some(rest)
    ensures FromHex([high, low] + s) == Some([HexByte(HexValue(high).value, HexValue(low).value)] + rest)
  {
    assert ([high, low] + s)[2..] == s;
  }

  // ------------------------------------------------------------------- lists

  function RenderAll<V>(q: seq<nat>, m: map<nat, V>, render: (nat, V) -> string): (parts: seq<string>)
    requires forall k :: k in q ==> k in m
    ensures |parts| == |q|
    ensures forall i :: 0 <= i < |q| ==> parts[i] == render(q[i], m[q[i]])
  {
    if q == [] then [] else [render(q[0], m[q[0]])] + RenderAll(q[1..], m, render)
  }

  function RenderMap<V>(m: map<nat, V>, render: (nat, V) -> string): string {
    Join(RenderAll(Sorted(m.Keys), m, render), ',')
  }

  function ParseAll<V>(parts: seq<string>, parse: string -> Option<(nat, V)>, acc: map<nat, V>): map<nat, V> {
    if parts == [] then acc
    else match parse(parts[0])
      case Some((k, v)) => ParseAll(parts[1..], parse, acc[k := v])
      case None => ParseAll(parts[1..], parse, acc)
  }

  function ParseMap<V>(s: string, parse: string -> Option<(nat, V)>): map<nat, V> {
    ParseAll(Split(s, ','), parse, map[])
  }

  ghost predicate EntryRoundTrips<V>(k: nat, v: V, render: (nat, V) -> string, parse: string -> Option<(nat, V)>) {
    parse(render(k, v)) == Some((k, v)) && ',' !in render(k, v) && Plain(render(k, v))
  }

  function Listed<V>(q: seq<nat>, m: map<nat, V>): map<nat, V>
    requires forall k :: k in q ==> k in m
  {
    map k | k in q :: m[k]
  }

  lemma ListedStep<V>(q: seq<nat>, m: map<nat, V>, acc: map<nat, V>)
    requires q != [] && forall k :: k in q ==> k in m
    ensures acc[q[0] := m[q[0]]] + Listed(q[1..], m) == acc + Listed(q, m)
  {
    assert forall k :: k in q <==> k == q[0] || k in q[1..];
  }

  lemma {:induction false} ParseAllOfRender<V>(q: seq<nat>, m: map<nat, V>, render: (nat, V) -> string,
                                              parse: string -> Option<(nat, V)>, acc: map<nat, V>)
    requires forall k :: k in q ==> k in m && EntryRoundTrips(k, m[k], render, parse)
    ensures ParseAll(RenderAll(q, m, render), parse, acc) == acc + Listed(q, m)
  {
    if q == [] {
      assert Listed(q, m) == map[];
    } else {
      assert q[0] in q;
      ParseAllOfRender(q[1..], m, render, parse, acc[q[0] := m[q[0]]]);
      ListedStep(q, m, acc);
    }
  }

  lemma RenderedPartsAreClean<V>(q: seq<nat>, m: map<nat, V>, render: (nat, V) -> string,
                                 parse: string -> Option<(nat, V)>)
    requires forall k :: k in q ==> k in m && EntryRoundTrips(k, m[k], render, parse)
    ensures forall p :: p in RenderAll(q, m, render) ==> ',' !in p && Plain(p)
  {
    var parts := RenderAll(q, m, render);
    forall i | 0 <= i < |parts|
      ensures ',' !in parts[i] && Plain(parts[i])
    {
      assert q[i] in q;
      assert EntryRoundTrips(q[i], m[q[i]], render, parse);
    }
  }

  lemma ParseOfJoin<V>(parts: seq<string>, parse: string -> Option<(nat, V)>)
    requires forall p :: p in parts ==> ',' !in p
    requires parse("") == None
    ensures ParseAll(Split(Join(parts, ','), ','), parse, map[]) == ParseAll(parts, parse, map[])
  {
    if parts == [] {
      assert Split("", ',') == [""];
    } else {
      SplitOfJoin(parts, ',');
    }
  }

  lemma ParseMapOfRender<V>(m: map<nat, V>, render: (nat, V) -> string, parse: string -> Option<(nat, V)>)
    requires forall k :: k in m ==> EntryRoundTrips(k, m[k], render, parse)
    requires parse("") == None
    ensures ParseMap(RenderMap(m, render), parse) == m
    ensures Plain(RenderMap(m, render))
  {
    hide Sorted, RenderAll, ParseAll, Join, Split, Plain, EntryRoundTrips;
    var q := Sorted(m.Keys);
    var parts := RenderAll(q, m, render);
    RenderedPartsAreClean(q, m, render, parse);
    PlainJoin(parts, ',');
    ParseOfJoin(parts, parse);
    ParseAllOfRender(q, m, render, parse, map[]);
    assert Listed(q, m) == m;
  }

  // ------------------------------------------------------- the three lists

  function RenderIndex(k: nat, v: ()): string {
    Dec(k)
  }

  function ParseIndex(s: string): Option<(nat, ())> {
    match ParseU64(s)
    case Some(k) => Some((k, ()))
    case None => None
  }

  function Units(s: set<nat>): map<nat, ()> {
    map k | k in s :: ()
  }

  function RenderMiss(k: nat, e: MissEntry): string {
    Join([Dec(k), Dec(e.rounds), DecInt(e.firstMs), DecInt(e.lastMs)], ':')
  }

  function ParseMiss(raw: string): Option<(nat, MissEntry)> {
    var parts := Split(raw, ':');
    if |parts| != 4 then None
    else match (ParseU64(parts[0]), ParseU64(parts[1]), ParseU64(parts[2]), ParseU64(parts[3]))
      case (Some(k), Some(rounds), Some(first), Some(last)) =>
        if rounds > MAX_U32 then None else Some((k, MissEntry(rounds, first, last)))
      case _ => None
  }

  function RenderSkip(k: nat, e: SkipEntry): string {
    Join([Dec(k), DecInt(e.atMs), DecInt(e.probeMs)], ':')
  }

  function ParseSkip(raw: string): Option<(nat, SkipEntry)> {
    var parts := Split(raw, ':');
    if |parts| != 3 then None
    else match (ParseU64(parts[0]), ParseU64(parts[1]), ParseU64(parts[2]))
      case (Some(k), Some(at), Some(probed)) => Some((k, SkipEntry(at, probed)))
      case _ => None
  }

  lemma JoinedDecs(parts: seq<string>)
    requires parts != [] && forall p :: p in parts ==> exists n: nat :: n <= MAX_U64 && p == Dec(n)
    ensures Split(Join(parts, ':'), ':') == parts
    ensures ',' !in Join(parts, ':') && Plain(Join(parts, ':'))
  {
    forall p | p in parts
      ensures ':' !in p && ',' !in p && Plain(p)
    {
      var n: nat :| n <= MAX_U64 && p == Dec(n);
      U64OfDec(n);
    }
    SplitOfJoin(parts, ':');
    PlainJoin(parts, ':');
    NoCommaInJoin(parts);
  }

  lemma {:induction false} NoCommaInJoin(parts: seq<string>)
    requires forall p :: p in parts ==> ',' !in p
    ensures ',' !in Join(parts, ':')
  {
    if |parts| > 1 {
      assert parts[0] in parts;
      NoCommaInJoin(parts[1..]);
    } else if |parts| == 1 {
      assert parts[0] in parts;
    }
  }

  lemma MissRoundTrips(k: nat, e: MissEntry)
    requires k <= MAX_U64 && e.rounds <= MAX_U32 && 0 <= e.firstMs <= MAX_U64 && 0 <= e.lastMs <= MAX_U64
    ensures EntryRoundTrips(k, e, RenderMiss, ParseMiss)
  {
    U64OfDec(k);
    U64OfDec(e.rounds);
    U64OfDec(e.firstMs);
    U64OfDec(e.lastMs);
    JoinedDecs([Dec(k), Dec(e.rounds), Dec(e.firstMs), Dec(e.lastMs)]);
  }

  lemma SkipRoundTrips(k: nat, e: SkipEntry)
    requires k <= MAX_U64 && 0 <= e.atMs <= MAX_U64 && 0 <= e.probeMs <= MAX_U64
    ensures EntryRoundTrips(k, e, RenderSkip, ParseSkip)
  {
    U64OfDec(k);
    U64OfDec(e.atMs);
    U64OfDec(e.probeMs);
    JoinedDecs([Dec(k), Dec(e.atMs), Dec(e.probeMs)]);
  }

  // --------------------------------------------------------- save and load

  function Fields(p: Profile): seq<Field> {
    [Field(Secret, Hex(p.secret)),
     Field(SendIndex, Dec(p.send)),
     Field(RecvBase, Dec(p.recv.base)),
     Field(DropWindow, Dec(p.recv.window)),
     Field(Consumed, RenderMap(Units(p.recv.consumed), RenderIndex)),
     Field(KnownNext, Dec(p.recv.known)),
     Field(HighestSeen, if p.recv.highest.Some? then Dec(p.recv.highest.value) else ""),
     Field(Missing, RenderMap(p.recv.missing, RenderMiss)),
     Field(Skipped, RenderMap(p.recv.skipped, RenderSkip)),
     Field(Probe, Dec(p.recv.probe))]
  }

  // save_offline_state
  function Render(p: Profile): string {
    RenderFields(Fields(p))
  }

  function LoadSecret(data: map<string, string>, current: seq<Byte>): seq<Byte> {
    match FromHex(Get(data, Name(Secret)))
    case Some(bytes) => if |bytes| == 32 then bytes else current
    case None => current
  }

  function LoadWindow(data: map<string, string>, current: nat): nat {
    match PyInt(Get(data, Name(DropWindow)))
    case Some(w) => if 0 < w <= MAX_U32 then w else current
    case None => current
  }

  function LoadHighest(data: map<string, string>, current: Option<nat>): Option<nat> {
    match ParseU64(Get(data, Name(HighestSeen)))
    case Some(h) => Raise(current, h)
    case None => current
  }

  // load_offline_state over the parsed lines, into whatever the client holds.
  function Load(current: Profile, data: map<string, string>): Profile {
    var base := Max(current.recv.base, ParseU64Or(Get(data, Name(RecvBase)), 0));
    var known := Max(Max(current.recv.known, ParseU64Or(Get(data, Name(KnownNext)), 0)), base);
    Profile(
      LoadSecret(data, current.secret),
      Max(current.send, ParseU64Or(Get(data, Name(SendIndex)), 0)),
      Bound(current.recv.(
        base := base,
        window := LoadWindow(data, current.recv.window),
        consumed := ParseMap(Get(data, Name(Consumed)), ParseIndex).Keys,
        known := known,
        highest := LoadHighest(data, current.recv.highest),
        missing := ParseMap(Get(data, Name(Missing)), ParseMiss),
        skipped := ParseMap(Get(data, Name(Skipped)), ParseSkip),
        probe := Max(current.recv.probe, ParseU64Or(Get(data, Name(Probe)), 0)))))
  }

  // Every state a client can hold and save.
  ghost predicate Persistable(p: Profile) {
    && |p.secret| == 32
    && p.send <= MAX_U64 && p.recv.base <= MAX_U64 && p.recv.known <= MAX_U64 && p.recv.probe <= MAX_U64
    && 1 <= p.recv.window <= MAX_U32
    && (p.recv.highest.Some? ==> p.recv.highest.value <= MAX_U64)
    && (forall k :: k in p.recv.consumed ==> k <= MAX_U64)
    && (forall k :: k in p.recv.missing ==> k <= MAX_U64 && MissFits(p.recv.missing[k]))
    && (forall k :: k in p.recv.skipped ==> k <= MAX_U64 && SkipFits(p.recv.skipped[k]))
  }

  predicate MissFits(e: MissEntry) {
    e.rounds <= MAX_U32 && 0 <= e.firstMs <= MAX_U64 && 0 <= e.lastMs <= MAX_U64
  }

  predicate SkipFits(e: SkipEntry) {
    0 <= e.atMs <= MAX_U64 && 0 <= e.probeMs <= MAX_U64
  }

  lemma ConsumedRoundTrips(consumed: set<nat>)
    requires forall k :: k in consumed ==> k <= MAX_U64
    ensures ParseMap(RenderMap(Units(consumed), RenderIndex), ParseIndex).Keys == consumed
    ensures Plain(RenderMap(Units(consumed), RenderIndex))
  {
    forall k | k in consumed
      ensures EntryRoundTrips(k, (), RenderIndex, ParseIndex)
    {
      U64OfDec(k);
    }
    ParseMapOfRender(Units(consumed), RenderIndex, ParseIndex);
  }

  lemma MissingRoundTrips(missing: map<nat, MissEntry>)
    requires forall k :: k in missing ==> k <= MAX_U64 && MissFits(missing[k])
    ensures ParseMap(RenderMap(missing, RenderMiss), ParseMiss) == missing
    ensures Plain(RenderMap(missing, RenderMiss))
  {
    forall k | k in missing
      ensures EntryRoundTrips(k, missing[k], RenderMiss, ParseMiss)
    {
      MissRoundTrips(k, missing[k]);
    }
    ParseMapOfRender(missing, RenderMiss, ParseMiss);
  }

  lemma SkippedRoundTrips(skipped: map<nat, SkipEntry>)
    requires forall k :: k in skipped ==> k <= MAX_U64 && SkipFits(skipped[k])
    ensures ParseMap(RenderMap(skipped, RenderSkip), ParseSkip) == skipped
    ensures Plain(RenderMap(skipped, RenderSkip))
  {
    forall k | k in skipped
      ensures EntryRoundTrips(k, skipped[k], RenderSkip, ParseSkip)
    {
      SkipRoundTrips(k, skipped[k]);
    }
    ParseMapOfRender(skipped, RenderSkip, ParseSkip);
  }

  lemma ListsArePlain(p: Profile)
    requires Persistable(p)
    ensures Plain(RenderMap(Units(p.recv.consumed), RenderIndex))
    ensures Plain(RenderMap(p.recv.missing, RenderMiss)) && Plain(RenderMap(p.recv.skipped, RenderSkip))
  {
    ConsumedRoundTrips(p.recv.consumed);
    MissingRoundTrips(p.recv.missing);
    SkippedRoundTrips(p.recv.skipped);
  }

  lemma NumbersArePlain()
    ensures forall n :: Plain(Dec(n))
  {
    forall n
      ensures Plain(Dec(n))
    {
      PlainDec(n);
    }
  }

  lemma FieldsArePlain(p: Profile)
    requires Persistable(p)
    ensures forall f :: f in Fields(p) ==> Plain(f.value)
  {
    hide Dec, RenderMap, Plain;
    ListsArePlain(p);
    NumbersArePlain();
    EmptyIsPlain();
  }

  lemma EmptyIsPlain()
    ensures Plain("")
  {
  }

  // The position of a field in the file.
  function Rank(k: Key): nat {
    match k
    case Secret => 0
    case SendIndex => 1
    case RecvBase => 2
    case DropWindow => 3
    case Consumed => 4
    case KnownNext => 5
    case HighestSeen => 6
    case Missing => 7
    case Skipped => 8
    case Probe => 9
  }

  lemma KeysAreDistinct(p: Profile)
    ensures DistinctKeys(Fields(p))
  {
    hide Dec, Hex, RenderMap;
    assert forall i :: 0 <= i < |Fields(p)| ==> Rank(Fields(p)[i].key) == i;
  }

  lemma WrittenFieldIsRead(fields: seq<Field>, i: nat)
    requires DistinctKeys(fields) && i < |fields|
    requires forall f :: f in fields ==> Plain(f.value)
    ensures Get(Parse(RenderFields(fields)), Name(fields[i].key)) == fields[i].value
  {
    ParseOfRender(fields, map[]);
    AssignedHolds(fields, map[], i);
  }

  // Reading the file back gives every field its written value.
  lemma ParsedField(p: Profile, i: nat)
    requires Persistable(p) && i < |Fields(p)|
    ensures Get(Parse(Render(p)), Name(Fields(p)[i].key)) == Fields(p)[i].value
  {
    var fields := Fields(p);
    assert Render(p) == RenderFields(fields);
    FieldsArePlain(p);
    KeysAreDistinct(p);
    WrittenFieldIsRead(fields, i);
  }

  lemma ParsedNumbers(p: Profile)
    requires Persistable(p)
    ensures var data := Parse(Render(p));
            && ParseU64Or(Get(data, Name(SendIndex)), 0) == p.send
            && ParseU64Or(Get(data, Name(RecvBase)), 0) == p.recv.base
            && ParseU64Or(Get(data, Name(KnownNext)), 0) == p.recv.known
            && ParseU64Or(Get(data, Name(Probe)), 0) == p.recv.probe
  {
    ParsedField(p, 1);
    ParsedField(p, 2);
    ParsedField(p, 5);
    ParsedField(p, 9);
    U64OfDec(p.send);
    U64OfDec(p.recv.base);
    U64OfDec(p.recv.known);
    U64OfDec(p.recv.probe);
  }

  lemma ParsedSecret(p: Profile, current: seq<Byte>)
    requires Persistable(p)
    ensures LoadSecret(Parse(Render(p)), current) == p.secret
  {
    ParsedField(p, 0);
    HexRoundTrip(p.secret);
  }

  lemma ParsedWindow(p: Profile)
    requires Persistable(p)
    ensures PyInt(Get(Parse(Render(p)), Name(DropWindow))) == Some(p.recv.window)
  {
    hide Parse, Render, PyInt;
    ParsedField(p, 3);
    IntOfDec(p.recv.window);
  }

  lemma ParsedHighest(p: Profile)
    requires Persistable(p)
    ensures LoadHighest(Parse(Render(p)), None) == p.recv.highest
  {
    hide Parse, Render;
    ParsedField(p, 6);
    if p.recv.highest.Some? {
      U64OfDec(p.recv.highest.value);
    }
  }

  lemma PersistableFits(p: Profile)
    requires Persistable(p)
    ensures forall k :: k in p.recv.consumed ==> k <= MAX_U64
    ensures forall k :: k in p.recv.missing ==> k <= MAX_U64 && MissFits(p.recv.missing[k])
    ensures forall k :: k in p.recv.skipped ==> k <= MAX_U64 && SkipFits(p.recv.skipped[k])
  {
  }

  lemma ParsedLists(p: Profile)
    requires Persistable(p)
    ensures var data := Parse(Render(p));
            && ParseMap(Get(data, Name(Consumed)), ParseIndex).Keys == p.recv.consumed
            && ParseMap(Get(data, Name(Missing)), ParseMiss) == p.recv.missing
            && ParseMap(Get(data, Name(Skipped)), ParseSkip) == p.recv.skipped
  {
    hide Parse, Render, ParseMap, RenderMap, Persistable, Name, Plain;
    PersistableFits(p);
    ParsedField(p, 4);
    ParsedField(p, 7);
    ParsedField(p, 8);
    ConsumedRoundTrips(p.recv.consumed);
    MissingRoundTrips(p.recv.missing);
    SkippedRoundTrips(p.recv.skipped);
  }

  // A save read into a reset client restores exactly what Restored says.
  lemma SaveThenLoad(p: Profile, secret: seq<Byte>, window: nat)
    requires Persistable(p)
    ensures Load(Profile(secret, 0, Fresh(window)), Parse(Render(p))) == Profile(p.secret, p.send, Restored(p.recv))
  {
    hide Parse, Render, ParseMap, PyInt, FromHex, Name;
    ParsedSecret(p, secret);
    ParsedNumbers(p);
    ParsedWindow(p);
    ParsedHighest(p);
    ParsedLists(p);
  }

  // With the base not past the known next send and both maps within the limit,
  // as every finished sweep leaves them, nothing persisted is lost.
  lemma SaveThenLoadLosesNothing(p: Profile, secret: seq<Byte>, window: nat)
    requires Persistable(p)
    requires p.recv.base <= p.recv.known
    requires |p.recv.missing| <= RECOVERY_STATE_LIMIT && |p.recv.skipped| <= RECOVERY_STATE_LIMIT
    ensures Load(Profile(secret, 0, Fresh(window)), Parse(Render(p)))
         == p.(recv := p.recv.(stalled := 0, lastProbeMs := 0))
  {
    SaveThenLoad(p, secret, window);
    KeepSmallestOfSmall(p.recv.missing, RECOVERY_STATE_LIMIT);
    KeepSmallestOfSmall(p.recv.skipped, RECOVERY_STATE_LIMIT);
  }

  // Loading any text at all never moves an index backwards.
  lemma LoadNeverLowers(current: Profile, text: string)
    ensures var p := Load(current, Parse(text));
            && p.send >= current.send
            && p.recv.base >= current.recv.base
            && p.recv.known >= current.recv.known && p.recv.known >= p.recv.base
            && p.recv.probe >= current.recv.probe
            && (current.recv.highest.Some? ==>
                  p.recv.highest.Some? && p.recv.highest.value >= current.recv.highest.value)
    ensures current.recv.Valid() ==> Load(current, Parse(text)).recv.Valid()
  {
  }

  lemma {:induction false} ParsedEntriesFit<V>(parts: seq<string>, parse: string -> Option<(nat, V)>,
                                               acc: map<nat, V>, fits: (nat, V) -> bool)
    requires forall s: string :: parse(s).Some? ==> fits(parse(s).value.0, parse(s).value.1)
    requires forall k :: k in acc ==> fits(k, acc[k])
    ensures forall k :: k in ParseAll(parts, parse, acc) ==>
              fits(k, ParseAll(parts, parse, acc)[k])
  {
    if parts != [] {
      match parse(parts[0]) {
        case Some((k, v)) => ParsedEntriesFit(parts[1..], parse, acc[k := v], fits);
        case None => ParsedEntriesFit(parts[1..], parse, acc, fits);
      }
    }
  }

  lemma ParsedIndexesFit(s: string)
    ensures forall k :: k in ParseMap(s, ParseIndex) ==> k <= MAX_U64
  {
    hide ParseAll, Split, PyInt;
    ParsedEntriesFit(Split(s, ','), ParseIndex, map[], (k: nat, v: ()) => k <= MAX_U64);
  }

  lemma ParsedMissesFit(s: string)
    ensures forall k :: k in ParseMap(s, ParseMiss) ==> k <= MAX_U64 && MissFits(ParseMap(s, ParseMiss)[k])
  {
    hide ParseAll, Split, PyInt;
    forall raw: string
      ensures ParseMiss(raw).Some? ==> ParseMiss(raw).value.0 <= MAX_U64 && MissFits(ParseMiss(raw).value.1)
    {
      ParsedMissFits(raw);
    }
    ParsedEntriesFit(Split(s, ','), ParseMiss, map[], (k: nat, v: MissEntry) => k <= MAX_U64 && MissFits(v));
  }

  lemma ParsedMissFits(raw: string)
    ensures ParseMiss(raw).Some? ==> ParseMiss(raw).value.0 <= MAX_U64 && MissFits(ParseMiss(raw).value.1)
  {
    hide Split, PyInt;
  }

  lemma ParsedSkipFits(raw: string)
    ensures ParseSkip(raw).Some? ==> ParseSkip(raw).value.0 <= MAX_U64 && SkipFits(ParseSkip(raw).value.1)
  {
    hide Split, PyInt;
  }

  lemma ParsedSkipsFit(s: string)
    ensures forall k :: k in ParseMap(s, ParseSkip) ==> k <= MAX_U64 && SkipFits(ParseMap(s, ParseSkip)[k])
  {
    hide ParseAll, Split, PyInt;
    forall raw: string
      ensures ParseSkip(raw).Some? ==> ParseSkip(raw).value.0 <= MAX_U64 && SkipFits(ParseSkip(raw).value.1)
    {
      ParsedSkipFits(raw);
    }
    ParsedEntriesFit(Split(s, ','), ParseSkip, map[], (k: nat, v: SkipEntry) => k <= MAX_U64 && SkipFits(v));
  }

  // Whatever a file says, a client that could save its state can save it afterwards:
  // the secret stays 32 bytes, the window positive, no number leaves its width, and
  // neither map grows past its limit.
  lemma LoadStaysPersistable(current: Profile, text: string)
    requires Persistable(current)
    ensures var p := Load(current, Parse(text));
            Persistable(p) && |p.recv.missing| <= 512 && |p.recv.skipped| <= 512
  {
    hide Parse, ParseMap, PyInt, FromHex, Name, KeepSmallest;
    var data := Parse(text);
    ParsedIndexesFit(Get(data, Name(Consumed)));
    ParsedMissesFit(Get(data, Name(Missing)));
    ParsedSkipsFit(Get(data, Name(Skipped)));
    KeptOf(ParseMap(Get(data, Name(Missing)), ParseMiss), RECOVERY_STATE_LIMIT);
    KeptOf(ParseMap(Get(data, Name(Skipped)), ParseSkip), RECOVERY_STATE_LIMIT);
  }

  lemma KeptOf<V>(m: map<nat, V>, n: nat)
    ensures |KeepSmallest(m, n)| <= n
    ensures forall k :: k in KeepSmallest(m, n) ==> k in m && KeepSmallest(m, n)[k] == m[k]
  {
    KeepSmallestSize(m, n);
  }

  // A secret or a window that is no good leaves the one the client has.
  lemma LoadKeepsUnusable(current: Profile, text: string)
    ensures var (p, data) := (Load(current, Parse(text)), Parse(text));
            && (p.secret != current.secret ==> |p.secret| == 32 && FromHex(Get(data, Name(Secret))) == Some(p.secret))
            && (p.recv.window != current.recv.window ==>
                  0 < p.recv.window <= 0xFFFF_FFFF && PyInt(Get(data, Name(DropWindow))) == Some(p.recv.window))
  {
    hide Parse, ParseMap, PyInt, FromHex, Name;
  }

  // ------------------------------------------------------------ the last one wins

  // Looking from the end, the first part that says anything about k.
  function LastSaid<V>(parts: seq<string>, parse: string -> Option<(nat, V)>, k: nat): Option<V> {
    if parts == [] then None
    else
      var said := parse(parts[|parts| - 1]);
      if said.Some? && said.value.0 == k then Some(said.value.1) else LastSaid(parts[..|parts| - 1], parse, k)
  }

  lemma {:induction false} ParseOneMore<V>(parts: seq<string>, part: string, parse: string -> Option<(nat, V)>,
                                           acc: map<nat, V>)
    ensures ParseAll(parts + [part], parse, acc)
         == match parse(part)
            case Some((k, v)) => ParseAll(parts, parse, acc)[k := v]
            case None => ParseAll(parts, parse, acc)
  {
    if parts == [] {
      assert [] + [part] == [part] && [part][1..] == [];
    } else {
      assert (parts + [part])[0] == parts[0] && (parts + [part])[1..] == parts[1..] + [part];
      match parse(parts[0]) {
        case Some((k, v)) => ParseOneMore(parts[1..], part, parse, acc[k := v]);
        case None => ParseOneMore(parts[1..], part, parse, acc);
      }
    }
  }

  // What a list says of an index is what its last entry for it says; an entry that does
  // not parse changes nothing.
  lemma {:induction false} LastEntryWins<V>(parts: seq<string>, parse: string -> Option<(nat, V)>, k: nat)
    ensures var m := ParseAll(parts, parse, map[]);
            LastSaid(parts, parse, k) == if k in m then Some(m[k]) else None
  {
    if parts != [] {
      var front := parts[..|parts| - 1];
      assert parts == front + [parts[|parts| - 1]];
      ParseOneMore(front, parts[|parts| - 1], parse, map[]);
      LastEntryWins(front, parse, k);
    }
  }

  // A line that assigns a value to this key.
  predicate Assigns(raw: string, key: string) {
    '=' in Trim(raw) && Trim(Trim(raw)[..IndexOf(Trim(raw), '=')]) == key
  }

  function LastAssigned(lines: seq<string>, key: string): Option<string> {
    if lines == [] then None
    else
      var raw := lines[|lines| - 1];
      if Assigns(raw, key) then Some(Trim(Trim(raw)[IndexOf(Trim(raw), '=') + 1..]))
      else LastAssigned(lines[..|lines| - 1], key)
  }

  lemma {:induction false} ReadOneMore(lines: seq<string>, raw: string, data: map<string, string>)
    ensures ParseLines(lines + [raw], data) == AbsorbLine(ParseLines(lines, data), raw)
  {
    hide AbsorbLine;
    if lines == [] {
      assert [] + [raw] == [raw] && [raw][1..] == [];
    } else {
      assert (lines + [raw])[0] == lines[0] && (lines + [raw])[1..] == lines[1..] + [raw];
      ReadOneMore(lines[1..], raw, AbsorbLine(data, lines[0]));
    }
  }

  // And what the file says of a key is what its last line for it says; any other line
  // changes nothing.
  lemma {:induction false} LastLineWins(lines: seq<string>, key: string)
    ensures var data := ParseLines(lines, map[]);
            LastAssigned(lines, key) == if key in data then Some(data[key]) else None
  {
    hide Trim;
    if lines != [] {
      var front := lines[..|lines| - 1];
      assert lines == front + [lines[|lines| - 1]];
      ReadOneMore(front, lines[|lines| - 1], map[]);
      LastLineWins(front, key);
    }
  }

  // ------------------------------------------------------- the reading loops

  method ReadFields(text: string) returns (data: map<string, string>)
    ensures data == Parse(text)
  {
    var lines := Split(text, '\n');
    data := map[];
    var i := 0;
    while i < |lines|
      invariant i <= |lines|
      invariant ParseLines(lines[i..], data) == Parse(text)
    {
      var line := Trim(lines[i]);
      if line != "" && '=' in line {
        var at := IndexOf(line, '=');
        data := data[Trim(line[..at]) := Trim(line[at + 1..])];
      }
      i := i + 1;
    }
  }

  method ReadMap<V>(s: string, parse: string -> Option<(nat, V)>) returns (m: map<nat, V>)
    ensures m == ParseMap(s, parse)
  {
    var parts := Split(s, ',');
    m := map[];
    var i := 0;
    while i < |parts|
      invariant i <= |parts|
      invariant ParseAll(parts[i..], parse, m) == ParseMap(s, parse)
    {
      match parse(parts[i]) {
        case Some((k, v)) => m := m[k := v];
        case None =>
      }
      i := i + 1;
    }
  }
}
