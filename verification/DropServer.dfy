// One dead drop of the Python server: the request line, the write-once store
// with its time to live, and what a client's PUT and GET get back. A PUT awaits its
// body after its line was read and admitted, and anything may be served meanwhile;
// between the existence check and the write nothing else runs. Times are whole
// nanoseconds.
module DropServer {
  import opened Basics
  import opened Text
  import opened ByteText
  import opened ProofOfWork
  import RateLimit

  const MAX_BLOB_SIZE: nat := 256 * 1024
  const MAX_LINE: nat := 512
  const TTL: int := 14 * 24 * 60 * 60 * 1_000_000_000

  // ---------------------------------------------------------- request line

  function FirstWord(s: string): (w: string)
    ensures |w| <= |s| && (s != "" && !IsSpace(s[0]) ==> w != "")
  {
    if s == "" || IsSpace(s[0]) then "" else [s[0]] + FirstWord(s[1..])
  }

  // str.split()
  function Words(s: string): seq<string>
    decreases |s|
  {
    if s == "" then []
    else if IsSpace(s[0]) then Words(s[1..])
    else [FirstWord(s)] + Words(s[|FirstWord(s)|..])
  }

  datatype Command = Put(key: string, size: nat, counter: nat) | Get(key: string) | Unusable | Empty

  function ParseLine(line: string): Command {
    if |line| > MAX_LINE then Unusable
    else
      var parts := Words(line);
      if parts == [] then Empty
      else if parts[0] == "PUT" && |parts| >= 4 then
        if !ValidKey(parts[1]) then Unusable
        else match (PyInt(parts[2]), PyInt(parts[3]))
          case (Some(size), Some(counter)) =>
            if counter < 0 || size < 0 || size > MAX_BLOB_SIZE then Unusable else Put(parts[1], size, counter)
          case _ => Unusable
      else if parts[0] == "GET" && |parts| >= 2 then
        if ValidKey(parts[1]) then Get(parts[1]) else Unusable
      else Unusable
  }

  // What deaddrop.py writes.
  function PutLine(key: string, size: nat, counter: nat): string {
    "PUT" + ([' '] + (key + ([' '] + (Dec(size) + ([' '] + (Dec(counter) + ['\n']))))))
  }

  function GetLine(key: string): string {
    "GET" + ([' '] + (key + ['\n']))
  }

  lemma {:induction false} FirstWordIs(w: string, c: char, rest: string)
    requires Plain(w) && IsSpace(c)
    ensures FirstWord(w + ([c] + rest)) == w
  {
    if w != "" {
      assert w[0] in w && forall x :: x in w[1..] ==> x in w;
      assert (w + ([c] + rest))[1..] == w[1..] + ([c] + rest);
      FirstWordIs(w[1..], c, rest);
    }
  }

  lemma WordsOf(w: string, c: char, rest: string)
    requires Plain(w) && w != "" && IsSpace(c)
    ensures Words(w + ([c] + rest)) == [w] + Words(rest)
  {
    var s := w + ([c] + rest);
    FirstWordIs(w, c, rest);
    assert w[0] in w;
    assert s[|w|..] == [c] + rest && ([c] + rest)[1..] == rest;
  }

  lemma LastWord(w: string)
    requires Plain(w) && w != ""
    ensures Words(w + ['\n']) == [w]
  {
    WordsOf(w, '\n', "");
    assert ['\n'] + "" == ['\n'];
  }

  lemma CommandsArePlain()
    ensures Plain("PUT") && Plain("GET")
  {
  }

  lemma PutWords(key: string, size: nat, counter: nat)
    requires Plain(key) && key != ""
    ensures Words(PutLine(key, size, counter)) == ["PUT", key, Dec(size), Dec(counter)]
  {
    hide Words, Plain, Dec;
    CommandsArePlain();
    PlainDec(size);
    PlainDec(counter);
    LastWord(Dec(counter));
    WordsOf(Dec(size), ' ', Dec(counter) + ['\n']);
    WordsOf(key, ' ', Dec(size) + ([' '] + (Dec(counter) + ['\n'])));
    WordsOf("PUT", ' ', key + ([' '] + (Dec(size) + ([' '] + (Dec(counter) + ['\n'])))));
  }

  lemma GetWords(key: string)
    requires Plain(key) && key != ""
    ensures Words(GetLine(key)) == ["GET", key]
  {
    hide Words, Plain;
    CommandsArePlain();
    LastWord(key);
    WordsOf("GET", ' ', key + ['\n']);
  }

  // The server reads from a client's line what the client meant, exactly if the
  // key is valid, the blob is not too large and the line not too long.
  lemma PutLineIsReadIff(key: string, size: nat, counter: nat)
    requires Plain(key) && key != ""
    ensures ParseLine(PutLine(key, size, counter)) == Put(key, size, counter)
       <==> ValidKey(key) && size <= MAX_BLOB_SIZE && |PutLine(key, size, counter)| <= MAX_LINE
  {
    hide Words, Plain, Dec, PyInt, ValidKey, PutLine;
    PutWords(key, size, counter);
    IntOfDec(size);
    IntOfDec(counter);
  }

  lemma GetLineIsReadIff(key: string)
    requires Plain(key) && key != ""
    ensures ParseLine(GetLine(key)) == Get(key) <==> ValidKey(key)
  {
    hide Words, Plain, GetLine;
    GetWords(key);
    assert |GetLine(key)| == 5 + |key| by { GetLineLength(key); }
  }

  lemma GetLineLength(key: string)
    ensures |GetLine(key)| == 5 + |key|
  {
  }

  // What the server makes of any line at all, by its words. A line of no words is
  // passed over in silence, one that is neither request is answered ERR.
  lemma CommandIff(line: string, key: string, size: nat, counter: nat)
    ensures ParseLine(line) == Put(key, size, counter)
       <==> && |line| <= 512 && |Words(line)| >= 4 && Words(line)[..2] == ["PUT", key] && ValidKey(key)
            && PyInt(Words(line)[2]) == Some(size) && size <= 256 * 1024 && PyInt(Words(line)[3]) == Some(counter)
    ensures ParseLine(line) == Get(key)
       <==> |line| <= 512 && |Words(line)| >= 2 && Words(line)[..2] == ["GET", key] && ValidKey(key)
    ensures ParseLine(line) == Empty <==> |line| <= 512 && Words(line) == []
  {
    hide Words, PyInt, ValidKey;
    CommandsDiffer();
    var parts := Words(line);
    if |parts| >= 2 {
      assert parts[..2] == [parts[0], parts[1]];
    }
  }

  lemma CommandsDiffer()
    ensures "PUT" != "GET"
  {
    assert "PUT"[0] != "GET"[0];
  }

  // ----------------------------------------------------------------- store

  datatype Blob = Blob(data: seq<Byte>, written: int)

  // A PUT whose line was read and admitted and whose body is awaited.
  datatype Pending = Pending(key: string, size: nat, counter: nat)

  // waiting: the connections, by number, that await a body.
  datatype Drop = Drop(blobs: map<string, Blob>, times: seq<int>, waiting: map<nat, Pending>)

  datatype Reply = Awaited | Stored | Exists | Data(data: seq<Byte>) | Miss | Refused | Silent

  predicate Expired(b: Blob, now: int) {
    now - b.written > TTL
  }

  function ServeGet(d: Drop, key: string, now: int): (Drop, Reply) {
    if key !in d.blobs then (d, Miss)
    else if Expired(d.blobs[key], now) then (d.(blobs := d.blobs - {key}), Miss)
    else (d, Data(d.blobs[key].data))
  }

  // A request up to its reply, or up to the await of its body.
  function Start(d: Drop, id: nat, line: string, now: int): (Drop, Reply) {
    match ParseLine(line)
    case Put(key, size, counter) =>
      var e := d.(times := RateLimit.After(d.times, now));
      if RateLimit.Allowed(d.times, now) then (e.(waiting := d.waiting[id := Pending(key, size, counter)]), Awaited)
      else (e, Refused)
    case Get(key) => ServeGet(d, key, now)
    case Unusable => (d, Refused)
    case Empty => (d, Silent)
  }

  // The rest of a PUT, with what came of its body in time.
  function Finish(sha: Hash, d: Drop, id: nat, body: seq<Byte>, written: int): (Drop, Reply)
    requires id in d.waiting
  {
    var p := d.waiting[id];
    var e := d.(waiting := d.waiting - {id});
    if |body| < p.size then (e, Silent)
    else if !PythonAccepts(sha, p.key, p.size, body[..p.size], p.counter) then (e, Refused)
    else if p.key in d.blobs then (e, Exists)
    else (e.(blobs := d.blobs[p.key := Blob(body[..p.size], written)]), Stored)
  }

  // gc_loop, one round
  function Collect(d: Drop, now: int): Drop {
    d.(blobs := map k | k in d.blobs && !Expired(d.blobs[k], now) :: d.blobs[k])
  }

  class Server {
    const sha: Hash
    const limiter: RateLimit.Limiter
    var blobs: map<string, Blob>
    var waiting: map<nat, Pending>

    function View(): Drop
      reads this, limiter
    {
      Drop(blobs, limiter.times, waiting)
    }

    constructor (sha: Hash)
      ensures View() == Drop(map[], [], map[]) && this.sha == sha
      ensures fresh(limiter)
    {
      this.sha := sha;
      limiter := new RateLimit.Limiter();
      blobs, waiting := map[], map[];
    }

    // handle_client up to the await of a PUT's body
    method StartRequest(id: nat, line: string, now: int) returns (reply: Reply)
      modifies this, limiter
      ensures (View(), reply) == Start(old(View()), id, line, now)
    {
      hide ParseLine, RateLimit.After, RateLimit.Allowed;
      match ParseLine(line) {
        case Put(key, size, counter) =>
          var allowed := limiter.AllowPut(now);
          if !allowed {
            return Refused;
          }
          waiting := waiting[id := Pending(key, size, counter)];
          return Awaited;
        case Get(key) =>
          if key !in blobs {
            return Miss;
          }
          if Expired(blobs[key], now) {
            blobs := blobs - {key};
            return Miss;
          }
          return Data(blobs[key].data);
        case Unusable => return Refused;
        case Empty => return Silent;
      }
    }

    // and from there
    method FinishPut(id: nat, body: seq<Byte>, written: int) returns (reply: Reply)
      requires id in waiting
      modifies this
      ensures (View(), reply) == Finish(sha, old(View()), id, body, written)
    {
      hide PythonAccepts;
      var p := waiting[id];
      waiting := waiting - {id};
      if |body| < p.size {
        return Silent;
      }
      var data := body[..p.size];
      if !PythonAccepts(sha, p.key, p.size, data, p.counter) {
        return Refused;
      }
      if p.key in blobs {
        return Exists;
      }
      blobs := blobs[p.key := Blob(data, written)];
      return Stored;
    }

    method CollectExpired(now: int)
      modifies this`blobs
      ensures View() == Collect(old(View()), now)
    {
      var todo := blobs.Keys;
      while todo != {}
        invariant todo <= blobs.Keys
        invariant forall k :: k in blobs <==> k in old(blobs) && (k in todo || !Expired(old(blobs)[k], now))
        invariant forall k :: k in blobs ==> blobs[k] == old(blobs)[k]
        decreases |todo|
      {
        var key :| key in todo;
        todo := todo - {key};
        if Expired(blobs[key], now) {
          blobs := blobs - {key};
        }
      }
    }
  }

  // ------------------------------------------------------------ whole runs

  datatype Event =
    | Line(id: nat, line: string, now: int)
    | Body(id: nat, body: seq<Byte>, written: int)
    | Gc(now: int)

  predicate Enabled(d: Drop, e: Event) {
    match e
    case Line(id, _, _) => id !in d.waiting
    case Body(id, _, _) => id in d.waiting
    case Gc(_) => true
  }

  function Apply(sha: Hash, d: Drop, e: Event): Drop
    requires Enabled(d, e)
  {
    match e
    case Line(id, line, now) => Start(d, id, line, now).0
    case Body(id, body, written) => Finish(sha, d, id, body, written).0
    case Gc(now) => Collect(d, now)
  }

  predicate Legal(sha: Hash, d: Drop, run: seq<Event>)
    decreases |run|
  {
    run != [] ==> Enabled(d, run[0]) && Legal(sha, Apply(sha, d, run[0]), run[1..])
  }

  function Run(sha: Hash, d: Drop, run: seq<Event>): Drop
    requires Legal(sha, d, run)
    decreases |run|
  {
    if run == [] then d else Run(sha, Apply(sha, d, run[0]), run[1..])
  }

  // Requests and collections up to the deadline; a PUT does not look at ages.
  predicate Until(run: seq<Event>, deadline: int) {
    forall e :: e in run && !e.Body? ==> e.now <= deadline
  }

  lemma StepKeepsBlob(sha: Hash, d: Drop, e: Event, key: string)
    requires key in d.blobs && Enabled(d, e) && (!e.Body? ==> e.now <= d.blobs[key].written + TTL)
    ensures var t := Apply(sha, d, e); key in t.blobs && t.blobs[key] == d.blobs[key]
  {
    hide ParseLine, PythonAccepts;
  }

  // Write once: until its time to live is over, no request, no body that was awaited
  // meanwhile and no collection changes or removes a stored blob.
  lemma {:induction false} StoredBlobStays(sha: Hash, d: Drop, run: seq<Event>, key: string)
    requires key in d.blobs && Legal(sha, d, run) && Until(run, d.blobs[key].written + TTL)
    ensures var t := Run(sha, d, run); key in t.blobs && t.blobs[key] == d.blobs[key]
    decreases |run|
  {
    hide Apply, Enabled;
    if run != [] {
      assert run[0] in run;
      StepKeepsBlob(sha, d, run[0], key);
      StoredBlobStays(sha, Apply(sha, d, run[0]), run[1..], key);
    }
  }

  // A stored blob goes exactly when a request for it or a collection finds its time to
  // live over; until then every step leaves it.
  lemma RemovedIff(sha: Hash, d: Drop, e: Event, key: string)
    requires key in d.blobs && Enabled(d, e)
    ensures key !in Apply(sha, d, e).blobs
       <==> && (e.Gc? || (e.Line? && ParseLine(e.line) == Get(key)))
            && e.now - d.blobs[key].written > TTL
  {
    hide ParseLine, PythonAccepts;
  }

  // The clocks of the usable PUT lines of a run, which is all the limiter gets to see.
  function PutTimes(run: seq<Event>): seq<int> {
    if run == [] then []
    else
      var e := run[|run| - 1];
      PutTimes(run[..|run| - 1]) + (if e.Line? && ParseLine(e.line).Put? then [e.now] else [])
  }

  lemma {:induction false} RunOneMore(sha: Hash, d: Drop, run: seq<Event>, e: Event)
    requires Legal(sha, d, run + [e])
    ensures Legal(sha, d, run) && Enabled(Run(sha, d, run), e)
    ensures Run(sha, d, run + [e]) == Apply(sha, Run(sha, d, run), e)
    decreases |run|
  {
    hide Apply, Enabled;
    if run == [] {
      assert [] + [e] == [e] && [e][1..] == [];
    } else {
      assert (run + [e])[0] == run[0] && (run + [e])[1..] == run[1..] + [e];
      RunOneMore(sha, Apply(sha, d, run[0]), run[1..], e);
    }
  }

  // So what the limiter's own theorems say of its calls holds of the PUT lines of every
  // run of the server, whatever else it serves.
  lemma {:induction false} LimiterFollowsPuts(sha: Hash, run: seq<Event>)
    requires Legal(sha, Drop(map[], [], map[]), run)
    ensures Run(sha, Drop(map[], [], map[]), run).times == RateLimit.RunAll(PutTimes(run)).times
  {
    hide Apply, Enabled, Run, Legal, ParseLine, RateLimit.After, RateLimit.Allowed, RateLimit.RunAll;
    if run != [] {
      var front, e := run[..|run| - 1], run[|run| - 1];
      assert run == front + [e];
      RunOneMore(sha, Drop(map[], [], map[]), front, e);
      LimiterFollowsPuts(sha, front);
      TimesAfter(sha, Run(sha, Drop(map[], [], map[]), front), e);
      assert PutTimes(front) + [] == PutTimes(front);
      if e.Line? && ParseLine(e.line).Put? {
        RateLimit.OneMoreCall(PutTimes(front), e.now);
      }
    } else {
      StartsEmpty(sha);
    }
  }

  lemma StartsEmpty(sha: Hash)
    ensures Legal(sha, Drop(map[], [], map[]), []) && Run(sha, Drop(map[], [], map[]), []).times == []
    ensures RateLimit.RunAll([]).times == []
  {
  }

  lemma TimesAfter(sha: Hash, d: Drop, e: Event)
    requires Enabled(d, e)
    ensures Apply(sha, d, e).times
         == if e.Line? && ParseLine(e.line).Put? then RateLimit.After(d.times, e.now) else d.times
  {
    hide ParseLine, PythonAccepts, RateLimit.After, RateLimit.Allowed;
  }

  // Some PUT of the run was told OK and stored this blob under this key.
  predicate StoredIn(sha: Hash, d: Drop, run: seq<Event>, key: string, b: Blob)
    requires Legal(sha, d, run)
    decreases |run|
  {
    run != [] && (StoredNow(sha, d, run[0], key, b) || StoredIn(sha, Apply(sha, d, run[0]), run[1..], key, b))
  }

  predicate StoredNow(sha: Hash, d: Drop, e: Event, key: string, b: Blob)
    requires Enabled(d, e)
  {
    && e.Body? && Finish(sha, d, e.id, e.body, e.written).1 == Stored
    && d.waiting[e.id].key == key && d.waiting[e.id].size <= |e.body|
    && b == Blob(e.body[..d.waiting[e.id].size], e.written)
  }

  lemma NewBlobIsStored(sha: Hash, d: Drop, e: Event, key: string)
    requires Enabled(d, e) && key in Apply(sha, d, e).blobs
    ensures StoredNow(sha, d, e, key, Apply(sha, d, e).blobs[key])
         || (key in d.blobs && d.blobs[key] == Apply(sha, d, e).blobs[key])
  {
    hide ParseLine, PythonAccepts;
  }

  lemma {:induction false} HeldWasStored(sha: Hash, d: Drop, run: seq<Event>, key: string)
    requires Legal(sha, d, run) && key in Run(sha, d, run).blobs
    ensures StoredIn(sha, d, run, key, Run(sha, d, run).blobs[key])
         || (key in d.blobs && d.blobs[key] == Run(sha, d, run).blobs[key])
    decreases |run|
  {
    hide Apply, Enabled, StoredNow;
    if run != [] {
      HeldWasStored(sha, Apply(sha, d, run[0]), run[1..], key);
      if key in Apply(sha, d, run[0]).blobs {
        NewBlobIsStored(sha, d, run[0], key);
      }
    }
  }

  // What a GET returns is a blob that some earlier PUT was told OK for, no older than
  // its time to live; and a GET misses exactly if the drop holds none such.
  lemma ServedWasStored(sha: Hash, run: seq<Event>, reader: nat, key: string, now: int)
    requires ValidKey(key) && Legal(sha, Drop(map[], [], map[]), run)
    ensures var t := Run(sha, Drop(map[], [], map[]), run);
            var reply := Start(t, reader, GetLine(key), now).1;
            && (reply == Miss <==> key !in t.blobs || now - t.blobs[key].written > TTL)
            && (reply != Miss ==>
                  && key in t.blobs && reply == Data(t.blobs[key].data) && now - t.blobs[key].written <= TTL
                  && StoredIn(sha, Drop(map[], [], map[]), run, key, t.blobs[key]))
  {
    hide Start, Run, Legal, StoredIn, ValidKey, GetLine;
    var t := Run(sha, Drop(map[], [], map[]), run);
    GetAnswer(t, reader, key, now);
    if key in t.blobs {
      HeldWasStored(sha, Drop(map[], [], map[]), run, key);
    }
  }

  // No body for this connection in the run.
  predicate Undisturbed(run: seq<Event>, id: nat) {
    forall e :: e in run && e.Body? ==> e.id != id
  }

  lemma {:induction false} StaysWaiting(sha: Hash, d: Drop, run: seq<Event>, id: nat)
    requires id in d.waiting && Legal(sha, d, run) && Undisturbed(run, id)
    ensures var t := Run(sha, d, run); id in t.waiting && t.waiting[id] == d.waiting[id]
    decreases |run|
  {
    hide Apply, Enabled;
    if run != [] {
      assert run[0] in run;
      StepStaysWaiting(sha, d, run[0], id);
      StaysWaiting(sha, Apply(sha, d, run[0]), run[1..], id);
    }
  }

  lemma StepStaysWaiting(sha: Hash, d: Drop, e: Event, id: nat)
    requires id in d.waiting && Enabled(d, e) && (e.Body? ==> e.id != id)
    ensures var t := Apply(sha, d, e); id in t.waiting && t.waiting[id] == d.waiting[id]
  {
    hide ParseLine, PythonAccepts;
  }

  // Whatever comes of a body, its connection awaits nothing any more and no other is
  // touched; too short a body gets no reply, unworked bytes are refused, and neither
  // changes the store.
  lemma BodyVerdict(sha: Hash, d: Drop, id: nat, body: seq<Byte>, written: int)
    requires id in d.waiting
    ensures var (t, reply) := Finish(sha, d, id, body, written);
            var p := d.waiting[id];
            && (reply == Silent <==> |body| < p.size)
            && (reply == Refused <==>
                  p.size <= |body| && !PythonOk(sha(Material(p.key, p.size, body[..p.size], p.counter)), ZERO_BITS))
            && (reply == Silent || reply == Refused ==> t.blobs == d.blobs)
            && t.waiting == d.waiting - {id} && t.times == d.times
  {
    hide PythonOk, Material;
  }

  // Every blob in the store passed the proof of work, and every awaited body is
  // for a usable key and size.
  ghost predicate Worked(sha: Hash, d: Drop) {
    && (forall k :: k in d.blobs ==>
          ValidKey(k) && |d.blobs[k].data| <= MAX_BLOB_SIZE && Accepted(sha, k, d.blobs[k].data))
    && (forall id :: id in d.waiting ==> ValidKey(d.waiting[id].key) && d.waiting[id].size <= MAX_BLOB_SIZE)
  }

  ghost predicate Accepted(sha: Hash, key: string, data: seq<Byte>) {
    exists counter: nat :: PythonAccepts(sha, key, |data|, data, counter)
  }

  lemma UsableCommand(line: string)
    ensures ParseLine(line).Put? ==> ValidKey(ParseLine(line).key) && ParseLine(line).size <= MAX_BLOB_SIZE
  {
    hide ValidKey, Words, PyInt;
  }

  lemma StartKeepsWorked(sha: Hash, d: Drop, id: nat, line: string, now: int)
    requires Worked(sha, d)
    ensures Worked(sha, Start(d, id, line, now).0)
  {
    hide PythonAccepts, ValidKey, ParseLine, Accepted, RateLimit.After, RateLimit.Allowed;
    UsableCommand(line);
  }

  lemma FinishKeepsWorked(sha: Hash, d: Drop, id: nat, body: seq<Byte>, written: int)
    requires Worked(sha, d) && id in d.waiting
    ensures Worked(sha, Finish(sha, d, id, body, written).0)
  {
    hide PythonAccepts, ValidKey;
  }

  lemma StepKeepsWorked(sha: Hash, d: Drop, e: Event)
    requires Worked(sha, d) && Enabled(d, e)
    ensures Worked(sha, Apply(sha, d, e))
  {
    hide Start, Finish, Accepted, ValidKey;
    match e {
      case Line(id, line, now) => StartKeepsWorked(sha, d, id, line, now);
      case Body(id, body, written) => FinishKeepsWorked(sha, d, id, body, written);
      case Gc(_) =>
    }
  }

  // So in every state a drop can reach from an empty one.
  lemma {:induction false} RunKeepsWorked(sha: Hash, d: Drop, run: seq<Event>)
    requires Worked(sha, d) && Legal(sha, d, run)
    ensures Worked(sha, Run(sha, d, run))
    decreases |run|
  {
    hide Apply, Enabled, Worked;
    if run != [] {
      StepKeepsWorked(sha, d, run[0]);
      RunKeepsWorked(sha, Apply(sha, d, run[0]), run[1..]);
    }
  }

  predicate Sendable(key: string, blob: seq<Byte>, counter: nat) {
    ValidKey(key) && |blob| <= MAX_BLOB_SIZE && |PutLine(key, |blob|, counter)| <= MAX_LINE
  }

  lemma ValidKeyIsPlain(key: string)
    requires ValidKey(key)
    ensures Plain(key) && key != ""
  {
  }

  // A client's PUT line is admitted exactly if the limiter has room.
  lemma LineAnswer(d: Drop, id: nat, key: string, blob: seq<Byte>, counter: nat, now: int)
    requires Sendable(key, blob, counter)
    ensures var (t, reply) := Start(d, id, PutLine(key, |blob|, counter), now);
            && (reply == Awaited <==> RateLimit.Allowed(d.times, now))
            && (reply == Awaited ==> id in t.waiting && t.waiting[id] == Pending(key, |blob|, counter))
            && (reply != Awaited ==> reply == Refused && t.waiting == d.waiting)
            && t.blobs == d.blobs && (forall other :: other in d.waiting && other != id ==>
                                        other in t.waiting && t.waiting[other] == d.waiting[other])
  {
    hide ParseLine, PutLine, ValidKey, RateLimit.After, RateLimit.Allowed;
    ValidKeyIsPlain(key);
    PutLineIsReadIff(key, |blob|, counter);
  }

  // A line of no words gets no reply, one that is no usable request is answered ERR, and
  // neither leaves a trace.
  lemma OtherLineVerdict(d: Drop, id: nat, line: string, now: int)
    ensures var (t, reply) := Start(d, id, line, now);
            && (reply == Silent <==> |line| <= 512 && Words(line) == [])
            && (reply == Refused <==>
                  match ParseLine(line)
                  case Put(_, _, _) => !RateLimit.Allowed(d.times, now)
                  case Get(_) => false
                  case _ => |line| > 512 || Words(line) != [])
            && (!ParseLine(line).Put? && !ParseLine(line).Get? ==> t == d)
  {
    hide Words, PyInt, ValidKey, RateLimit.Allowed, RateLimit.After;
  }

  // The connection awaits this blob.
  predicate Awaits(sha: Hash, d: Drop, id: nat, key: string, blob: seq<Byte>) {
    && id in d.waiting && d.waiting[id].key == key && d.waiting[id].size == |blob|
    && PythonAccepts(sha, key, |blob|, blob, d.waiting[id].counter)
  }

  lemma BodyAnswer(sha: Hash, d: Drop, id: nat, key: string, blob: seq<Byte>, written: int)
    requires Awaits(sha, d, id, key, blob)
    ensures var (t, reply) := Finish(sha, d, id, blob, written);
            && (reply == Stored <==> key !in d.blobs) && (reply == Exists <==> key in d.blobs)
            && t.blobs == if key in d.blobs then d.blobs else d.blobs[key := Blob(blob, written)]
  {
    hide PythonAccepts;
    assert blob[..|blob|] == blob;
  }

  lemma {:induction false} StillAwaits(sha: Hash, d: Drop, run: seq<Event>, id: nat, key: string, blob: seq<Byte>)
    requires Awaits(sha, d, id, key, blob) && Legal(sha, d, run) && Undisturbed(run, id)
    ensures Awaits(sha, Run(sha, d, run), id, key, blob)
  {
    hide PythonAccepts, Run, Legal, Undisturbed;
    StaysWaiting(sha, d, run, id);
  }

  // A worked PUT, with anything served between its line and its body: an admitted
  // one is answered by what the store holds when the body is there, and only OK
  // changes the store then.
  lemma PutAnswer(sha: Hash, d: Drop, id: nat, key: string, blob: seq<Byte>, counter: nat, now: int,
                  run: seq<Event>, written: int)
    requires Sendable(key, blob, counter) && PythonAccepts(sha, key, |blob|, blob, counter)
    requires RateLimit.Allowed(d.times, now)
    requires Undisturbed(run, id) && Legal(sha, Start(d, id, PutLine(key, |blob|, counter), now).0, run)
    ensures var t := Run(sha, Start(d, id, PutLine(key, |blob|, counter), now).0, run);
            && id in t.waiting
            && var (u, reply) := Finish(sha, t, id, blob, written);
               && (reply == Stored <==> key !in t.blobs) && (reply == Exists <==> key in t.blobs)
               && u.blobs == if key in t.blobs then t.blobs else t.blobs[key := Blob(blob, written)]
  {
    hide Start, Finish, Run, Legal, Undisturbed, Sendable, PythonAccepts, PutLine;
    LineAnswer(d, id, key, blob, counter, now);
    var e := Start(d, id, PutLine(key, |blob|, counter), now).0;
    StillAwaits(sha, e, run, id, key, blob);
    BodyAnswer(sha, Run(sha, e, run), id, key, blob, written);
  }

  // Of two PUTs that await their bodies for one free key, in whichever order they
  // were admitted and whatever is served in between, the one whose body is there
  // first is stored; the other is told EXISTS, and the first blob is what is kept.
  lemma FirstBodyWins(sha: Hash, d: Drop, first: nat, second: nat, key: string, blob: seq<Byte>, other: seq<Byte>,
                      written: int, run: seq<Event>, later: int)
    requires Awaits(sha, d, first, key, blob) && Awaits(sha, d, second, key, other)
    requires first != second && key !in d.blobs
    requires Legal(sha, Finish(sha, d, first, blob, written).0, run)
    requires Undisturbed(run, second) && Until(run, written + TTL)
    ensures Finish(sha, d, first, blob, written).1 == Stored
    ensures var t := Run(sha, Finish(sha, d, first, blob, written).0, run);
            && second in t.waiting
            && var (u, reply) := Finish(sha, t, second, other, later);
               reply == Exists && key in u.blobs && u.blobs[key] == Blob(blob, written)
  {
    hide Finish, Run, Legal, Undisturbed, PythonAccepts, Until;
    BodyAnswer(sha, d, first, key, blob, written);
    OthersStayWaiting(sha, d, first, second, blob, written);
    var e := Finish(sha, d, first, blob, written).0;
    StillAwaits(sha, e, run, second, key, other);
    StoredBlobStays(sha, e, run, key);
    BodyAnswer(sha, Run(sha, e, run), second, key, other, later);
  }

  lemma OthersStayWaiting(sha: Hash, d: Drop, id: nat, other: nat, body: seq<Byte>, written: int)
    requires id in d.waiting && other in d.waiting && id != other
    ensures var t := Finish(sha, d, id, body, written).0;
            other in t.waiting && t.waiting[other] == d.waiting[other]
  {
    hide PythonAccepts;
  }

  lemma GetAnswer(d: Drop, id: nat, key: string, now: int)
    requires ValidKey(key)
    ensures Start(d, id, GetLine(key), now) == ServeGet(d, key, now)
  {
    hide ParseLine, GetLine, ValidKey;
    ValidKeyIsPlain(key);
    GetLineIsReadIff(key);
  }

  // Store and fetch: after a PUT that was answered OK, whatever else the drop
  // serves, a GET within the time to live returns that very blob.
  lemma PutThenGet(sha: Hash, d: Drop, id: nat, key: string, blob: seq<Byte>, written: int,
                   run: seq<Event>, reader: nat, now: int)
    requires ValidKey(key) && Awaits(sha, d, id, key, blob)
    requires Finish(sha, d, id, blob, written).1 == Stored
    requires Legal(sha, Finish(sha, d, id, blob, written).0, run)
    requires Until(run, written + TTL) && now <= written + TTL
    ensures var t := Run(sha, Finish(sha, d, id, blob, written).0, run);
            Start(t, reader, GetLine(key), now).1 == Data(blob)
  {
    hide Start, Finish, Run, Legal, PythonAccepts, GetLine, Until;
    BodyAnswer(sha, d, id, key, blob, written);
    var e := Finish(sha, d, id, blob, written).0;
    StoredBlobStays(sha, e, run, key);
    GetAnswer(Run(sha, e, run), reader, key, now);
  }

  // The client counts EXISTS as success. Right after such an answer a GET misses
  // exactly if the blob in the way is past its time to live, since a PUT does not
  // look at its age.
  lemma ExistsButMissedIff(sha: Hash, d: Drop, id: nat, key: string, blob: seq<Byte>, written: int, reader: nat, now: int)
    requires ValidKey(key) && Awaits(sha, d, id, key, blob)
    requires Finish(sha, d, id, blob, written).1 == Exists
    ensures key in d.blobs
    ensures Start(Finish(sha, d, id, blob, written).0, reader, GetLine(key), now).1 == Miss
       <==> Expired(d.blobs[key], now)
  {
    hide Start, Finish, PythonAccepts, GetLine;
    BodyAnswer(sha, d, id, key, blob, written);
    GetAnswer(Finish(sha, d, id, blob, written).0, reader, key, now);
  }
}
