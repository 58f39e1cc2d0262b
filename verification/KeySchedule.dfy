// Which drop key each side derives for which index: the client's own derivation
// and the watcher's second one. The hash is a parameter; what is proved is about
// the material that goes into it.
module KeySchedule {
  import opened Basics
  import opened Text
  import opened ByteText
  import opened MemberOrder
  import opened OfflineState
  import opened OfflineText
  import opened Roster

  datatype Direction = Send | Recv

  datatype KeyError = PeerUnknown

  type Hash = seq<Byte> -> string

  // ------------------------------------------------------------------- ids

  // str.replace(pattern, "")
  function Erase(s: string, pattern: string): string
    requires pattern != ""
    decreases |s|
  {
    if s == "" then ""
    else if pattern <= s then Erase(s[|pattern|..], pattern)
    else [s[0]] + Erase(s[1..], pattern)
  }

  const SUFFIX: string := ".b32.i2p"

  function Id(address: string): string {
    Lower(Trim(Erase(address, SUFFIX)))
  }

  function LowId(my: string, peer: string): string {
    if LexLess(Id(peer), Id(my)) then Id(peer) else Id(my)
  }

  function HighId(my: string, peer: string): string {
    if LexLess(Id(peer), Id(my)) then Id(my) else Id(peer)
  }

  function Label(my: string, peer: string, dir: Direction): string {
    if (Id(my) == LowId(my, peer)) == dir.Send? then "LOW_TO_HIGH" else "HIGH_TO_LOW"
  }

  function Fields(secret: seq<Byte>, low: string, high: string, way: string, index: nat): seq<Byte> {
    secret + [BAR] + (Encode(low) + [BAR] + (Encode(high) + [BAR] + (Encode(way) + [BAR] + Encode(Dec(index)))))
  }

  // derive_deaddrop_key, before hashing
  function Material(secret: seq<Byte>, my: string, peer: string, dir: Direction, index: nat): seq<Byte> {
    Fields(secret, LowId(my, peer), HighId(my, peer), Label(my, peer, dir), index)
  }

  lemma FieldsInjective(secret: seq<Byte>, low: string, high: string, way: string, index: nat,
                        secret': seq<Byte>, low': string, high': string, way': string, index': nat)
    requires |secret| == |secret'|
    requires FieldText(low) && FieldText(high) && FieldText(way)
    requires FieldText(low') && FieldText(high') && FieldText(way')
    requires Fields(secret, low, high, way, index) == Fields(secret', low', high', way', index')
    ensures secret == secret' && low == low' && high == high' && way == way' && index == index'
  {
    hide Encode, FieldText, Dec;
    var (d, d') := (Encode(Dec(index)), Encode(Dec(index')));
    var (w, w') := (Encode(way) + [BAR] + d, Encode(way') + [BAR] + d');
    var (h, h') := (Encode(high) + [BAR] + w, Encode(high') + [BAR] + w');
    FixedField(secret, Encode(low) + [BAR] + h, secret', Encode(low') + [BAR] + h');
    FirstText(low, h, low', h');
    FirstText(high, w, high', w');
    FirstText(way, d, way', d');
    DecIsField(index);
    DecIsField(index');
    EncodeDecInjective(index, index');
  }

  lemma EncodeDecInjective(m: nat, n: nat)
    requires FieldText(Dec(m)) && FieldText(Dec(n)) && Encode(Dec(m)) == Encode(Dec(n))
    ensures m == n
  {
    EncodeInjective(Dec(m), Dec(n));
    DecInjective(m, n);
  }

  lemma LabelsDiffer()
    ensures FieldText("LOW_TO_HIGH") && FieldText("HIGH_TO_LOW")
    ensures "LOW_TO_HIGH" != "HIGH_TO_LOW"
  {
    assert "LOW_TO_HIGH"[0] != "HIGH_TO_LOW"[0];
  }

  predicate Party(address: string) {
    FieldText(Id(address))
  }

  lemma {:induction false} EraseSuffix(x: string)
    requires '.' !in x
    ensures Erase(x + SUFFIX, SUFFIX) == x
  {
    if x == "" {
      assert SUFFIX[|SUFFIX|..] == "";
      assert x + SUFFIX == SUFFIX;
    } else {
      var s := x + SUFFIX;
      assert s[0] == x[0] != SUFFIX[0];
      assert s[1..] == x[1..] + SUFFIX;
      EraseSuffix(x[1..]);
    }
  }

  // Every valid address is a party, and its id is what stands before the suffix.
  lemma AddressIsParty(address: string)
    requires IsB32(address)
    ensures Id(address) == address[..52] && Party(address)
    ensures Id(address) + SUFFIX == address
  {
    var x := address[..52];
    assert forall i :: 0 <= i < 52 ==> x[i] == address[i];
    assert forall c :: c in x ==> B32Char(c);
    assert address == x + SUFFIX;
    EraseSuffix(x);
    TrimPlain(x);
    assert Lower(x) == x;
  }

  // A message sent at an index is looked for where it was put, unless both
  // parties have the same id.
  lemma SendMeetsReceiveIff(secret: seq<Byte>, a: string, b: string, index: nat)
    requires Party(a) && Party(b)
    ensures Material(secret, a, b, Send, index) == Material(secret, b, a, Recv, index) <==> Id(a) != Id(b)
  {
    hide Id, FieldText, Fields;
    LexTotal(Id(a), Id(b));
    LexIrreflexive(Id(a));
    if LexLess(Id(a), Id(b)) && LexLess(Id(b), Id(a)) {
      LexTransitive(Id(a), Id(b), Id(a));
    }
    LabelsDiffer();
    if Id(a) == Id(b) {
      SameFieldsSameLabel(secret, Id(a), Id(a), index);
    }
  }

  // So between any two addresses.
  lemma AddressesMeetIff(secret: seq<Byte>, a: string, b: string, index: nat)
    requires IsB32(a) && IsB32(b)
    ensures Material(secret, a, b, Send, index) == Material(secret, b, a, Recv, index) <==> a != b
  {
    hide Material, Id, IsB32, FieldText;
    AddressIsParty(a);
    AddressIsParty(b);
    SendMeetsReceiveIff(secret, a, b, index);
  }

  lemma SameFieldsSameLabel(secret: seq<Byte>, low: string, high: string, index: nat)
    requires FieldText(low) && FieldText(high)
    ensures Fields(secret, low, high, "LOW_TO_HIGH", index) != Fields(secret, low, high, "HIGH_TO_LOW", index)
  {
    hide Fields;
    LabelsDiffer();
    if Fields(secret, low, high, "LOW_TO_HIGH", index) == Fields(secret, low, high, "HIGH_TO_LOW", index) {
      FieldsInjective(secret, low, high, "LOW_TO_HIGH", index, secret, low, high, "HIGH_TO_LOW", index);
    }
  }

  // No two uses share material: not two indexes, not two directions, not two
  // pairs of parties, not two secrets.
  lemma MaterialInjective(secret: seq<Byte>, my: string, peer: string, dir: Direction, index: nat,
                          secret': seq<Byte>, my': string, peer': string, dir': Direction, index': nat)
    requires |secret| == 32 == |secret'|
    requires Party(my) && Party(peer) && Party(my') && Party(peer')
    ensures Material(secret, my, peer, dir, index) == Material(secret', my', peer', dir', index')
       <==> && secret == secret' && index == index'
            && LowId(my, peer) == LowId(my', peer') && HighId(my, peer) == HighId(my', peer')
            && Label(my, peer, dir) == Label(my', peer', dir')
  {
    hide Id, FieldText, Fields;
    LabelsDiffer();
    if Material(secret, my, peer, dir, index) == Material(secret', my', peer', dir', index') {
      FieldsInjective(secret, LowId(my, peer), HighId(my, peer), Label(my, peer, dir), index,
                      secret', LowId(my', peer'), HighId(my', peer'), Label(my', peer', dir'), index');
    }
  }

  // For one party: different direction or index, different material.
  lemma UsesDiffer(secret: seq<Byte>, my: string, peer: string, dir: Direction, index: nat, dir': Direction, index': nat)
    requires |secret| == 32 && Party(my) && Party(peer)
    requires (dir, index) != (dir', index')
    ensures Material(secret, my, peer, dir, index) != Material(secret, my, peer, dir', index')
  {
    hide Id, FieldText, Fields;
    LabelsDiffer();
    MaterialInjective(secret, my, peer, dir, index, secret, my, peer, dir', index');
  }

  // ------------------------------------------------------------- key lists

  function KeysOf(targets: seq<Target>, key: nat -> string): (r: seq<(nat, string)>)
    ensures |r| == |targets|
    ensures forall i :: 0 <= i < |r| ==> r[i] == (targets[i].index, key(targets[i].index))
  {
    if targets == [] then [] else [(targets[0].index, key(targets[0].index))] + KeysOf(targets[1..], key)
  }

  function Listing(lo: nat, hi: nat, consumed: set<nat>, key: nat -> string): seq<(nat, string)> {
    KeysOf(WindowFrom(lo, hi, consumed), key)
  }

  function RecvKey(sha: Hash, secret: seq<Byte>, my: string, peer: string): nat -> string {
    (index: nat) => sha(Material(secret, my, peer, Recv, index))
  }

  function ClientEnd(base: nat, window: nat): nat {
    Min(MAX_U64 + 1, base + window)
  }

  const WINDOW_CAP: nat := 256

  function WatcherEnd(base: nat, window: int): nat {
    base + Min(Max(1, window), WINDOW_CAP)
  }

  // get_deaddrop_recv_window; deriving a key raises while the peer is unknown.
  method ClientWindow(sha: Hash, secret: seq<Byte>, my: string, peer: string, s: RecvState)
    returns (r: Result<seq<(nat, string)>, KeyError>)
    ensures r == if Id(peer) == "" && RecvWindow(s) != [] then Err(PeerUnknown)
                 else Ok(KeysOf(RecvWindow(s), RecvKey(sha, secret, my, peer)))
  {
    hide Material, Id, RecvKey, WindowFrom, KeysOf, Listing, ClientEnd;
    var keys: seq<(nat, string)> := [];
    var key := RecvKey(sha, secret, my, peer);
    var end := ClientEnd(s.base, s.window);
    var i := s.base;
    ghost var all := Listing(s.base, end, s.consumed, key);
    ListingIsWindow(s, key);
    while i < end
      invariant s.base <= i
      invariant Id(peer) == "" ==> keys == []
      invariant all == keys + Listing(i, end, s.consumed, key)
    {
      ListingStep(keys, i, end, s.consumed, key);
      if i !in s.consumed {
        if Id(peer) == "" {
          return Err(PeerUnknown);
        }
        keys := keys + [(i, key(i))];
      }
      i := i + 1;
    }
    ListingEnds(i, end, s.consumed, key);
    assert keys + [] == keys;
    return Ok(keys);
  }

  // sorted([a, b])
  function SortedPair(a: string, b: string): (string, string) {
    if LexLess(b, a) then (b, a) else (a, b)
  }

  // b"|".join(parts)
  function JoinBars(parts: seq<seq<Byte>>): seq<Byte> {
    if parts == [] then [] else if |parts| == 1 then parts[0]
    else parts[0] + [BAR] + JoinBars(parts[1..])
  }

  // The watcher's own derivation, before hashing.
  function WatcherMaterial(secret: seq<Byte>, my: string, peer: string, index: nat): seq<Byte> {
    var ids := SortedPair(Id(my), Id(peer));
    var way := if Id(my) == ids.0 then "HIGH_TO_LOW" else "LOW_TO_HIGH";
    JoinBars([secret, Encode(ids.0), Encode(ids.1), Encode(way), Encode(Dec(index))])
  }

  function WatcherKey(sha: Hash, secret: seq<Byte>, my: string, peer: string): nat -> string {
    (index: nat) => sha(WatcherMaterial(secret, my, peer, index))
  }

  lemma JoinMore(part: seq<Byte>, rest: seq<seq<Byte>>)
    requires rest != []
    ensures JoinBars([part] + rest) == part + [BAR] + JoinBars(rest)
  {
    assert ([part] + rest)[1..] == rest;
  }

  lemma JoinFive(a: seq<Byte>, b: seq<Byte>, c: seq<Byte>, d: seq<Byte>, e: seq<Byte>)
    ensures JoinBars([a, b, c, d, e]) == a + [BAR] + (b + [BAR] + (c + [BAR] + (d + [BAR] + e)))
  {
    JoinMore(d, [e]);
    JoinMore(c, [d] + [e]);
    JoinMore(b, [c] + ([d] + [e]));
    JoinMore(a, [b] + ([c] + ([d] + [e])));
    assert [a, b, c, d, e] == [a] + ([b] + ([c] + ([d] + [e])));
  }

  // The two programs derive the same material from any spelling of the same two ids.
  lemma WatcherDerivesTheSame(secret: seq<Byte>, my: string, peer: string, my': string, peer': string, index: nat)
    requires Id(my) == Id(my') && Id(peer) == Id(peer')
    ensures WatcherMaterial(secret, my', peer', index) == Material(secret, my, peer, Recv, index)
  {
    hide Id, Encode, Dec, JoinBars;
    var (low, high, way) := (LowId(my, peer), HighId(my, peer), Label(my, peer, Recv));
    JoinFive(secret, Encode(low), Encode(high), Encode(way), Encode(Dec(index)));
  }

  // ddwatcher.py derive_recv_window_keys
  method WatcherWindow(sha: Hash, my: string, peer: string, secret: seq<Byte>, base: nat, window: int, consumed: set<nat>)
    returns (keys: seq<(nat, string)>)
    ensures keys == Listing(base, WatcherEnd(base, window), consumed, WatcherKey(sha, secret, my, peer))
  {
    hide WatcherMaterial, Id, WatcherKey, WindowFrom, KeysOf, Listing;
    keys := [];
    var key := WatcherKey(sha, secret, my, peer);
    var end := WatcherEnd(base, window);
    var i := base;
    while i < end
      invariant base <= i <= end
      invariant Listing(base, end, consumed, key) == keys + Listing(i, end, consumed, key)
    {
      ListingStep(keys, i, end, consumed, key);
      if i !in consumed {
        keys := keys + [(i, key(i))];
      }
      i := i + 1;
    }
    ListingEnds(i, end, consumed, key);
    assert keys + [] == keys;
  }

  lemma ListingStep(keys: seq<(nat, string)>, lo: nat, hi: nat, consumed: set<nat>, key: nat -> string)
    requires lo < hi
    ensures keys + Listing(lo, hi, consumed, key)
         == (if lo in consumed then keys else keys + [(lo, key(lo))]) + Listing(lo + 1, hi, consumed, key)
    ensures lo !in consumed ==> Listing(lo, hi, consumed, key) != []
  {
    var rest := WindowFrom(lo + 1, hi, consumed);
    assert ([Target(lo, Window)] + rest)[1..] == rest;
  }

  lemma ListingEnds(lo: nat, hi: nat, consumed: set<nat>, key: nat -> string)
    requires lo >= hi
    ensures Listing(lo, hi, consumed, key) == []
  {
  }

  lemma ListingIsWindow(s: RecvState, key: nat -> string)
    ensures KeysOf(RecvWindow(s), key) == Listing(s.base, ClientEnd(s.base, s.window), s.consumed, key)
    ensures RecvWindow(s) == [] <==> KeysOf(RecvWindow(s), key) == []
  {
  }

  // ----------------------------------------------- the watcher's second list

  lemma {:induction false} LongerWindow(lo: nat, mid: nat, hi: nat, consumed: set<nat>)
    requires lo <= mid <= hi
    ensures WindowFrom(lo, hi, consumed) == WindowFrom(lo, mid, consumed) + WindowFrom(mid, hi, consumed)
    decreases mid - lo
  {
    if lo == mid {
      assert WindowFrom(lo, mid, consumed) == [];
    } else {
      LongerWindow(lo + 1, mid, hi, consumed);
      var front, back := WindowFrom(lo + 1, mid, consumed), WindowFrom(mid, hi, consumed);
      assert [Target(lo, Window)] + (front + back) == ([Target(lo, Window)] + front) + back;
    }
  }

  predicate AllConsumed(lo: nat, hi: nat, consumed: set<nat>) {
    forall i :: lo <= i < hi ==> i in consumed
  }

  lemma {:induction false} EmptyWindowIff(lo: nat, hi: nat, consumed: set<nat>)
    ensures WindowFrom(lo, hi, consumed) == [] <==> AllConsumed(lo, hi, consumed)
    decreases hi - lo
  {
    if lo < hi {
      EmptyWindowIff(lo + 1, hi, consumed);
    }
  }

  // Two ends list the same keys exactly if every index between them is consumed.
  lemma SameListIff(lo: nat, mid: nat, hi: nat, consumed: set<nat>, key: nat -> string)
    requires lo <= mid <= hi
    ensures Listing(lo, mid, consumed, key) == Listing(lo, hi, consumed, key)
       <==> AllConsumed(mid, hi, consumed)
  {
    LongerWindow(lo, mid, hi, consumed);
    EmptyWindowIff(mid, hi, consumed);
    assert |Listing(lo, hi, consumed, key)| == |Listing(lo, mid, consumed, key)| + |WindowFrom(mid, hi, consumed)|;
    assert WindowFrom(mid, hi, consumed) == [] ==> WindowFrom(lo, hi, consumed) == WindowFrom(lo, mid, consumed);
  }

  // The watcher polls what the client would poll exactly if every index between
  // the two window ends is consumed; the ends are the same for windows up to the
  // watcher's cap that stay below the u64 ceiling.
  lemma WatcherAgreesIff(base: nat, window: nat, consumed: set<nat>, key: nat -> string)
    requires base <= MAX_U64 && window >= 1
    ensures Listing(base, ClientEnd(base, window), consumed, key) == Listing(base, WatcherEnd(base, window), consumed, key)
       <==> AllConsumed(Min(ClientEnd(base, window), WatcherEnd(base, window)),
                        Max(ClientEnd(base, window), WatcherEnd(base, window)), consumed)
    ensures window <= WINDOW_CAP && base + window <= MAX_U64 + 1
        ==> ClientEnd(base, window) == WatcherEnd(base, window)
  {
    var (client, watcher) := (ClientEnd(base, window), WatcherEnd(base, window));
    SameListIff(base, Min(client, watcher), Max(client, watcher), consumed, key);
  }

  // Whatever window the file says, the watcher looks at one index at least and at 256
  // at most.
  lemma WatcherAlwaysLooks(base: nat, window: int)
    ensures base < WatcherEnd(base, window) <= base + 256
    ensures window <= 1 ==> WatcherEnd(base, window) == base + 1
    ensures 1 <= window <= 256 ==> WatcherEnd(base, window) == base + window
    ensures window >= 256 ==> WatcherEnd(base, window) == base + 256
  {
  }

  // -------------------------------------------- the watcher reads the file

  datatype Watched = Watched(secret: Option<seq<Byte>>, base: int, window: int, consumed: set<int>)

  const UNREADABLE: Watched := Watched(None, 0, 0, {})

  // int(data.get(key, default)), which may raise
  function IntOr(data: map<string, string>, key: string, default: int): Option<int> {
    if key in data then PyInt(data[key]) else Some(default)
  }

  function ReadConsumed(parts: seq<string>): Option<set<int>> {
    if parts == [] then Some({})
    else match ReadConsumed(parts[1..])
      case None => None
      case Some(rest) =>
        if Trim(parts[0]) == "" then Some(rest)
        else match PyInt(parts[0])
          case None => None
          case Some(i) => Some({i} + rest)
  }

  // ddwatcher.py load_offline_state over the parsed lines
  function WatcherLoad(data: map<string, string>): Watched {
    var secret := if Name(Secret) in data then FromHex(data[Name(Secret)]) else None;
    match (IntOr(data, Name(RecvBase), 0), IntOr(data, Name(DropWindow), 8),
           ReadConsumed(Split(Get(data, Name(Consumed)), ',')))
    case (Some(base), Some(window), Some(consumed)) => Watched(secret, base, window, consumed)
    case _ => UNREADABLE
  }

  // What a file without some field stands for: index 0, a window of 8, nothing consumed.
  lemma WatcherDefaults(data: map<string, string>)
    ensures var w := WatcherLoad(data);
            w != UNREADABLE ==>
              && (Name(RecvBase) !in data ==> w.base == 0) && (Name(DropWindow) !in data ==> w.window == 8)
              && (Name(Consumed) !in data ==> w.consumed == {})
    ensures WatcherLoad(map[]) == Watched(None, 0, 8, {})
  {
    hide Name;
    OnlyEmptyPart();
  }

  function Ints(q: seq<nat>): set<int> {
    set x | x in q
  }

  lemma {:induction false} ReadRendered(q: seq<nat>, m: map<nat, ()>)
    requires forall k :: k in q ==> k in m
    ensures ReadConsumed(RenderAll(q, m, RenderIndex)) == Some(Ints(q))
  {
    if q == [] {
      assert Ints(q) == {};
    } else {
      ReadRendered(q[1..], m);
      assert RenderAll(q, m, RenderIndex) == [Dec(q[0])] + RenderAll(q[1..], m, RenderIndex);
      PlainDec(q[0]);
      TrimPlain(Dec(q[0]));
      IntOfDec(q[0]);
      assert Ints(q) == {q[0]} + Ints(q[1..]);
    }
  }

  lemma ReadRenderedConsumed(consumed: set<nat>)
    ensures ReadConsumed(Split(RenderMap(Units(consumed), RenderIndex), ',')) == Some(set x | x in consumed)
  {
    hide Sorted, ReadConsumed, RenderAll, Split, Join;
    var q := Sorted(consumed);
    var m := Units(consumed);
    assert m.Keys == consumed;
    var parts := RenderAll(q, m, RenderIndex);
    ReadRendered(q, m);
    assert Ints(q) == set x: int | x in consumed;
    if parts == [] {
      OnlyEmptyPart();
    } else {
      NoCommas(q, m);
      SplitOfJoin(parts, ',');
    }
  }

  lemma NoCommas(q: seq<nat>, m: map<nat, ()>)
    requires forall k :: k in q ==> k in m
    ensures forall p :: p in RenderAll(q, m, RenderIndex) ==> ',' !in p
  {
    hide RenderAll;
    forall n: nat
      ensures ',' !in Dec(n)
    {
      assert AllDigits(Dec(n));
    }
  }

  lemma OnlyEmptyPart()
    ensures ReadConsumed(Split(Join([], ','), ',')) == Some({}) == ReadConsumed([])
  {
    assert Split("", ',') == [""];
    assert ReadConsumed([""][1..]) == Some({});
  }

  lemma PresentField(p: Profile, i: nat)
    requires Persistable(p) && i < |OfflineText.Fields(p)|
    requires OfflineText.Fields(p)[i].value != ""
    ensures var (data, f) := (Parse(Render(p)), OfflineText.Fields(p)[i]);
            Name(f.key) in data && data[Name(f.key)] == f.value
  {
    hide Parse, Render, Persistable;
    ParsedField(p, i);
  }

  lemma HexIsNotEmpty(bytes: seq<Byte>)
    requires bytes != []
    ensures Hex(bytes) != ""
  {
  }

  lemma WatcherReadsSave(p: Profile)
    requires Persistable(p)
    ensures WatcherLoad(Parse(Render(p)))
         == Watched(Some(p.secret), p.recv.base, p.recv.window, set x | x in p.recv.consumed)
  {
    hide Parse, Render, Hex, FromHex, Dec, RenderMap, PyInt, ReadConsumed, Name;
    HexIsNotEmpty(p.secret);
    PresentField(p, 0);
    HexRoundTrip(p.secret);
    PresentField(p, 2);
    IntOfDec(p.recv.base);
    PresentField(p, 3);
    IntOfDec(p.recv.window);
    ParsedField(p, 4);
    ReadRenderedConsumed(p.recv.consumed);
  }

  lemma {:induction false} SameKeys(targets: seq<Target>, key: nat -> string, key': nat -> string)
    requires forall i: nat :: key(i) == key'(i)
    ensures KeysOf(targets, key) == KeysOf(targets, key')
  {
    if targets != [] {
      SameKeys(targets[1..], key, key');
    }
  }

  // End to end: from the file the client saved, and any spelling of the same two
  // addresses, the watcher polls the very keys the client polls.
  lemma WatcherFollowsClient(sha: Hash, p: Profile, my: string, peer: string, my': string, peer': string)
    requires Persistable(p) && Id(my) == Id(my') && Id(peer) == Id(peer')
    requires p.recv.window <= WINDOW_CAP && p.recv.base + p.recv.window <= MAX_U64 + 1
    ensures var w := WatcherLoad(Parse(Render(p)));
            && w.secret.Some? && w.base >= 0
            && Listing(w.base, WatcherEnd(w.base, w.window), (set x: nat | x in w.consumed),
                       WatcherKey(sha, w.secret.value, my', peer'))
            == KeysOf(RecvWindow(p.recv), RecvKey(sha, p.secret, my, peer))
  {
    hide WatcherLoad, Parse, Render, KeysOf, Listing, Id, WatcherMaterial, Material;
    var (key, key') := (RecvKey(sha, p.secret, my, peer), WatcherKey(sha, p.secret, my', peer'));
    forall i: nat ensures key(i) == key'(i) {
      WatcherDerivesTheSame(p.secret, my, peer, my', peer', i);
    }
    SameKeys(RecvWindow(p.recv), key, key');
    ListingIsWindow(p.recv, key');
    WatcherReadsSave(p);
    WatcherAgreesIff(p.recv.base, p.recv.window, p.recv.consumed, key');
    var w := WatcherLoad(Parse(Render(p)));
    assert (set x: nat | x in w.consumed) == p.recv.consumed;
  }
}
