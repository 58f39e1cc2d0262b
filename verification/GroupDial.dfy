// Two group members that dial each other at once. Each side is one entry of
// group_peers, cut at its await points; the side with the lower address prefers
// its own stream. The model starts when the lower side has asked for its dial,
// whatever the higher side holds from earlier, and follows every interleaving from
// there, with any number of dials, lost streams and timeouts on the other streams.
module GroupDial {
  import opened Basics

  datatype Side = Low | High

  function Other(x: Side): Side {
    if x == Low then High else Low
  }

  // connect_group_peer between its awaits: asked for, awaiting the stream, the
  // stream is there, awaiting the handshake to be written.
  datatype Dial = NoDial | Requested | Connecting | Connected(stream: nat) | Greeting(stream: nat, prior: Option<nat>)

  // group_accept_loop: listening, or awaiting the handshake on a new stream.
  datatype Accept = Listening | Welcoming(stream: nat, prior: Option<nat>)

  // watched: a receive loop and a handshake timeout run on the writer.
  datatype Peer = Peer(writer: Option<nat>, ready: bool, connecting: bool, dial: Dial, accept: Accept, watched: bool)

  datatype System = System(
    low: Peer,
    high: Peer,
    used: set<nat>,                 // streams that exist
    arrived: set<(Side, nat)>,      // streams not yet taken by the accepting side
    closed: set<(Side, nat)>,       // ends that were closed
    greeted: set<(Side, nat)>,      // ends whose handshake was written
    main: Option<nat>)              // the stream of the lower side's first dial, once it exists
  {
    function At(x: Side): Peer {
      if x == Low then low else high
    }

    function With(x: Side, p: Peer): System {
      if x == Low then this.(low := p) else this.(high := p)
    }
  }

  // The lower side has asked for its dial and has accepted nothing.
  function Asked(): Peer {
    Peer(None, false, true, Requested, Listening, false)
  }

  // group_local_prefers_outbound
  predicate PrefersOutbound(x: Side) {
    x == Low
  }

  datatype Event =
    | AskDial(x: Side)
    | BeginDial(x: Side)
    | StreamUp(x: Side, n: nat)
    | DialFails(x: Side)
    | ResumeDial(x: Side)
    | GreetingWritten(x: Side)
    | GreetingFails(x: Side)
    | Incoming(x: Side, n: nat)
    | WelcomeWritten(x: Side)
    | WelcomeFails(x: Side)
    | KeyArrives(x: Side)
    | StreamEnds(x: Side)
    | Drop(x: Side, n: nat)

  // One of the two ends was closed.
  predicate Cut(s: System, stream: Option<nat>) {
    stream.Some? && ((Low, stream.value) in s.closed || (High, stream.value) in s.closed)
  }

  predicate Enabled(s: System, e: Event) {
    match e
    case AskDial(x) => var p := s.At(x); !p.ready && !p.connecting && p.writer.None? && p.dial.NoDial?
    case BeginDial(x) => s.At(x).dial.Requested?
    case StreamUp(x, n) => s.At(x).dial.Connecting? && n !in s.used
    // The dial under study is the lower side's first: it does not fail.
    case DialFails(x) => s.At(x).dial.Connecting? && (x == High || s.main.Some?)
    case ResumeDial(x) => s.At(x).dial.Connected?
    case GreetingWritten(x) => s.At(x).dial.Greeting?
    case GreetingFails(x) => s.At(x).dial.Greeting? && (Other(x), s.At(x).dial.stream) in s.closed
    case Incoming(x, n) => (x, n) in s.arrived && s.At(x).accept.Listening?
    case WelcomeWritten(x) => s.At(x).accept.Welcoming?
    case WelcomeFails(x) => s.At(x).accept.Welcoming? && (Other(x), s.At(x).accept.stream) in s.closed
    case KeyArrives(x) => s.At(x).watched && s.At(x).writer.Some? && (Other(x), s.At(x).writer.value) in s.greeted
    case StreamEnds(x) => s.At(x).watched && Cut(s, s.At(x).writer)
    // Timeouts, heartbeats and the network close any stream but the one under study.
    case Drop(x, n) => n in s.used && Some(n) != s.main
  }

  // What a step on one side does to the entry, and to streams: the end it closes
  // and the end it writes its handshake to.
  datatype Outcome = Outcome(peer: Peer, closes: Option<nat>, greets: Option<nat>)

  // connect_group_peer before it awaits the stream.
  function Dialling(p: Peer): Outcome {
    Outcome(if p.writer.Some? then p.(connecting := false, dial := NoDial) else p.(dial := Connecting), None, None)
  }

  // connect_group_peer after the stream is there.
  function Resumed(p: Peer, prefersOutbound: bool, n: nat): Outcome {
    if p.writer.Some? && (p.ready || !prefersOutbound) then
      Outcome(p.(connecting := false, dial := NoDial), Some(n), None)
    else
      Outcome(p.(writer := Some(n), connecting := false, ready := false, watched := false, dial := Greeting(n, p.writer)),
              None, Some(n))
  }

  // Its end: the handshake was written, or an error came up on the way.
  function DialDone(p: Peer): Outcome
    requires p.dial.Greeting?
  {
    Outcome(p.(dial := NoDial, watched := true), p.dial.prior, None)
  }

  function DialFailed(p: Peer): Outcome {
    Outcome(p.(writer := None, connecting := false, dial := NoDial, watched := false), None, None)
  }

  // group_accept_loop after the caller's identity was read.
  function Welcomed(p: Peer, prefersOutbound: bool, n: nat): Outcome {
    if (p.ready && p.writer.Some?) || ((p.writer.Some? || p.connecting) && prefersOutbound) then
      Outcome(p, Some(n), None)
    else
      Outcome(Peer(Some(n), false, false, NoDial, Welcoming(n, p.writer), false), None, Some(n))
  }

  // Its end. After an error the stream stays the entry's, with nobody reading it.
  function WelcomeDone(p: Peer, failed: bool): Outcome
    requires p.accept.Welcoming?
  {
    if failed then Outcome(p.(accept := Listening), None, None)
    else Outcome(p.(accept := Listening, watched := true), p.accept.prior, None)
  }

  // group_receive_loop when its stream ends.
  function Ended(p: Peer): Outcome {
    Outcome(p.(writer := None, ready := false, connecting := false, watched := false), p.writer, None)
  }

  function Ends(x: Side, stream: Option<nat>): set<(Side, nat)> {
    if stream.Some? then {(x, stream.value)} else {}
  }

  function Enact(s: System, x: Side, o: Outcome): System {
    s.With(x, o.peer).(closed := s.closed + Ends(x, o.closes), greeted := s.greeted + Ends(x, o.greets))
  }

  function Apply(s: System, e: Event): System
    requires Enabled(s, e)
  {
    match e
    case AskDial(x) => s.With(x, s.At(x).(connecting := true, dial := Requested))
    case BeginDial(x) => Enact(s, x, Dialling(s.At(x)))
    case StreamUp(x, n) =>
      s.With(x, s.At(x).(dial := Connected(n)))
       .(used := s.used + {n}, arrived := s.arrived + {(Other(x), n)},
         main := if x == Low && s.main.None? then Some(n) else s.main)
    case DialFails(x) => Enact(s, x, DialFailed(s.At(x)))
    case ResumeDial(x) => Enact(s, x, Resumed(s.At(x), PrefersOutbound(x), s.At(x).dial.stream))
    case GreetingWritten(x) => Enact(s, x, DialDone(s.At(x)))
    case GreetingFails(x) => Enact(s, x, DialFailed(s.At(x)))
    case Incoming(x, n) =>
      Enact(s, x, Welcomed(s.At(x), PrefersOutbound(x), n)).(arrived := s.arrived - {(x, n)})
    case WelcomeWritten(x) => Enact(s, x, WelcomeDone(s.At(x), false))
    case WelcomeFails(x) => Enact(s, x, WelcomeDone(s.At(x), true))
    case KeyArrives(x) => s.With(x, s.At(x).(ready := true))
    case StreamEnds(x) => Enact(s, x, Ended(s.At(x)))
    case Drop(x, n) => s.(closed := s.closed + {(x, n)})
  }

  ghost predicate Legal(s: System, run: seq<Event>)
    decreases |run|
  {
    run != [] ==> Enabled(s, run[0]) && Legal(Apply(s, run[0]), run[1..])
  }

  ghost function Execute(s: System, run: seq<Event>): System
    requires Legal(s, run)
    decreases |run|
  {
    if run == [] then s else Execute(Apply(s, run[0]), run[1..])
  }

  // ------------------------------------------------------------- invariant

  // Every stream an entry names exists.
  predicate Names(p: Peer, used: set<nat>) {
    && (p.writer.Some? ==> p.writer.value in used)
    && (p.accept.Welcoming? ==> p.accept.stream in used && (p.accept.prior.Some? ==> p.accept.prior.value in used))
    && (p.dial.Connected? || p.dial.Greeting? ==> p.dial.stream in used)
    && (p.dial.Greeting? && p.dial.prior.Some? ==> p.dial.prior.value in used)
  }

  // A dial of the higher side is for a stream of its own and replaces none.
  predicate OwnDial(p: Peer, main: Option<nat>) {
    && (p.dial.Connected? || p.dial.Greeting? ==> Some(p.dial.stream) != main)
    && (p.dial.Greeting? ==> p.dial.prior.None?)
  }

  // Numbers name streams that exist.
  ghost predicate Known(s: System) {
    && Names(s.low, s.used) && Names(s.high, s.used)
    && (s.main.Some? ==> s.main.value in s.used)
    && (forall x, n :: (x, n) in s.closed || (x, n) in s.arrived || (x, n) in s.greeted ==> n in s.used)
    && (forall n :: (Low, n) in s.arrived ==> Some(n) != s.main)
    && OwnDial(s.high, s.main)
  }

  // Any state in which the lower side has just asked for its dial.
  ghost predicate Redial(s: System) {
    s.main.None? && s.low == Asked() && Known(s)
  }

  // The higher side has taken the dialled stream off its queue.
  predicate Taken(s: System) {
    s.main.Some? && (High, s.main.value) !in s.arrived
  }

  // The lower side waits for its dial, or holds the dialled stream and no other.
  ghost predicate LowInv(s: System) {
    && s.low.accept.Listening?
    && match s.main
       case None =>
         && (s.low.dial.Requested? || s.low.dial.Connecting?)
         && s.low.connecting && !s.low.ready && s.low.writer.None?
       case Some(n) =>
         if s.low.dial == Connected(n) then s.low.connecting && !s.low.ready && s.low.writer.None?
         else (s.low.dial == NoDial || s.low.dial == Greeting(n, None)) && s.low.writer == Some(n)
  }

  // The higher side holds the dialled stream once it took it.
  ghost predicate HighInv(s: System) {
    && (s.high.accept.Welcoming? && s.high.accept.prior.Some? ==> s.high.accept.prior != s.main)
    && (s.main.Some? ==>
          if Taken(s) then s.high.writer == s.main && s.high.dial.NoDial? else s.high.writer != s.main)
  }

  ghost predicate Inv(s: System) {
    && Known(s) && LowInv(s) && HighInv(s)
    && (s.main.Some? ==> (Low, s.main.value) !in s.closed && (High, s.main.value) !in s.closed)
  }

  // The two ways in which the higher side can let the dialled stream go: it holds
  // another stream as ready when this one arrives, or it takes another, older one of
  // the lower side's after it, before it is ready.
  predicate Displaces(s: System, e: Event) {
    && e.Incoming? && e.x == High && s.main.Some?
    && if Some(e.n) == s.main then s.high.ready && s.high.writer.Some? else Taken(s) && !s.high.ready
  }

  lemma RedialInv(s: System)
    requires Redial(s)
    ensures Inv(s)
  {
  }

  lemma EnactKnown(s: System, x: Side, o: Outcome)
    requires Known(s) && Names(o.peer, s.used) && (x == High ==> OwnDial(o.peer, s.main))
    requires o.closes.Some? ==> o.closes.value in s.used
    requires o.greets.Some? ==> o.greets.value in s.used
    ensures Known(Enact(s, x, o))
  {
    hide Names, OwnDial;
  }

  lemma KnownAt(s: System, x: Side)
    requires Known(s)
    ensures Names(s.At(x), s.used) && (x == High ==> OwnDial(s.high, s.main))
  {
  }

  lemma StepKnown(s: System, e: Event)
    requires Known(s) && Enabled(s, e)
    ensures Known(Apply(s, e))
    ensures s.main.Some? ==> Apply(s, e).main == s.main
    ensures s.closed <= Apply(s, e).closed
  {
    hide Known;
    KnownAt(s, e.x);
    match e {
      case AskDial(x) => WithKnown(s, x, s.At(x).(connecting := true, dial := Requested));
      case BeginDial(x) => EnactKnown(s, x, Dialling(s.At(x)));
      case StreamUp(x, n) => UpKnown(s, x, n);
      case DialFails(x) => EnactKnown(s, x, DialFailed(s.At(x)));
      case ResumeDial(x) => EnactKnown(s, x, Resumed(s.At(x), PrefersOutbound(x), s.At(x).dial.stream));
      case GreetingWritten(x) => EnactKnown(s, x, DialDone(s.At(x)));
      case GreetingFails(x) => EnactKnown(s, x, DialFailed(s.At(x)));
      case Incoming(x, n) => TakenKnown(s, x, n);
      case WelcomeWritten(x) => EnactKnown(s, x, WelcomeDone(s.At(x), false));
      case WelcomeFails(x) => EnactKnown(s, x, WelcomeDone(s.At(x), true));
      case KeyArrives(x) => WithKnown(s, x, s.At(x).(ready := true));
      case StreamEnds(x) => EnactKnown(s, x, Ended(s.At(x)));
      case Drop(x, n) => DropKnown(s, x, n);
    }
  }

  lemma WithKnown(s: System, x: Side, p: Peer)
    requires Known(s) && Names(p, s.used) && (x == High ==> OwnDial(p, s.main))
    ensures Known(s.With(x, p))
  {
    hide Names, OwnDial;
  }

  lemma DropKnown(s: System, x: Side, n: nat)
    requires Known(s) && n in s.used
    ensures Known(s.(closed := s.closed + {(x, n)}))
  {
    hide Names, OwnDial;
  }

  lemma UpKnown(s: System, x: Side, n: nat)
    requires Known(s) && Enabled(s, StreamUp(x, n))
    ensures Known(Apply(s, StreamUp(x, n)))
  {
  }

  lemma TakenKnown(s: System, x: Side, n: nat)
    requires Known(s) && Enabled(s, Incoming(x, n))
    ensures Known(Apply(s, Incoming(x, n)))
  {
    var o := Welcomed(s.At(x), PrefersOutbound(x), n);
    EnactKnown(s, x, o);
    hide Names, OwnDial, Welcomed;
  }

  lemma LowStepKeeps(s: System, e: Event)
    requires Inv(s) && Enabled(s, e) && !e.Drop? && e.x == Low
    ensures Inv(Apply(s, e))
  {
    hide Known;
    StepKnown(s, e);
    KnownFacts(s);
  }

  // What the steps need of Known.
  lemma KnownFacts(s: System)
    requires Known(s)
    ensures s.main.Some? ==> s.main.value in s.used && (Low, s.main.value) !in s.arrived
    ensures forall x, n :: n !in s.used ==> (x, n) !in s.closed && (x, n) !in s.arrived
    ensures s.high.writer.Some? ==> s.high.writer.value in s.used
    ensures s.high.accept.Welcoming? && s.high.accept.prior.Some? ==> s.high.accept.prior.value in s.used
    ensures s.high.dial.Connected? || s.high.dial.Greeting? ==> Some(s.high.dial.stream) != s.main
    ensures s.high.dial.Greeting? ==> s.high.dial.prior.None?
  {
  }

  lemma HighStepKeeps(s: System, e: Event)
    requires Inv(s) && Enabled(s, e) && (e.Drop? || e.x == High) && !Displaces(s, e)
    ensures Inv(Apply(s, e))
  {
    hide Known;
    StepKnown(s, e);
    KnownFacts(s);
  }

  lemma StepKeeps(s: System, e: Event)
    requires Inv(s) && Enabled(s, e) && !Displaces(s, e)
    ensures Inv(Apply(s, e))
  {
    hide Inv, Apply, Enabled, Displaces;
    if !e.Drop? && e.x == Low {
      LowStepKeeps(s, e);
    } else {
      HighStepKeeps(s, e);
    }
  }

  // Some step of the run displaces the dialled stream.
  ghost predicate Displaced(s: System, run: seq<Event>)
    requires Legal(s, run)
    decreases |run|
  {
    run != [] && (Displaces(s, run[0]) || Displaced(Apply(s, run[0]), run[1..]))
  }

  lemma {:induction false} RunKeepsInv(s: System, run: seq<Event>)
    requires Inv(s) && Legal(s, run) && !Displaced(s, run)
    ensures Inv(Execute(s, run))
    decreases |run|
  {
    hide Inv, Apply, Enabled, Displaces;
    if run != [] {
      StepKeeps(s, run[0]);
      RunKeepsInv(Apply(s, run[0]), run[1..]);
    }
  }

  // ------------------------------------------------------------ what survives

  // Under every interleaving without one of those two steps, the dialled stream is
  // never closed, the lower side never holds another, and the higher side holds it
  // from when it took it.
  lemma DialledStreamSurvives(s: System, run: seq<Event>)
    requires Redial(s) && Legal(s, run) && !Displaced(s, run)
    ensures var t := Execute(s, run);
            && (t.low.writer.Some? ==> t.main.Some? && t.low.writer == t.main)
            && (t.main.Some? ==> (Low, t.main.value) !in t.closed && (High, t.main.value) !in t.closed)
            && (Taken(t) ==> t.high.writer == t.main)
  {
    RedialInv(s);
    RunKeepsInv(s, run);
  }

  // Let go by the higher side for good.
  ghost predicate Gone(s: System) {
    Known(s) && Taken(s) && s.high.writer != s.main
  }

  lemma DisplacedIsGone(s: System, e: Event)
    requires Inv(s) && Enabled(s, e) && Displaces(s, e)
    ensures Gone(Apply(s, e))
    ensures Some(e.n) == s.main ==> (High, e.n) in Apply(s, e).closed
  {
    hide Known;
    StepKnown(s, e);
    KnownFacts(s);
  }

  lemma GoneStays(s: System, e: Event)
    requires Gone(s) && Enabled(s, e)
    ensures Gone(Apply(s, e))
  {
    hide Known;
    StepKnown(s, e);
    KnownFacts(s);
  }

  lemma {:induction false} RunStaysGone(s: System, run: seq<Event>)
    requires Gone(s) && Legal(s, run)
    ensures Gone(Execute(s, run))
    decreases |run|
  {
    hide Gone, Apply, Enabled;
    if run != [] {
      GoneStays(s, run[0]);
      RunStaysGone(Apply(s, run[0]), run[1..]);
    }
  }

  // Exactly then: once the higher side took the dialled stream, it holds it if and
  // only if none of the two steps occurred, whatever else did.
  lemma {:induction false} HeldIff(s: System, run: seq<Event>)
    requires Inv(s) && Legal(s, run)
    ensures var t := Execute(s, run);
            (Taken(t) ==> t.high.writer == t.main) <==> !Displaced(s, run)
    decreases |run|
  {
    hide Known, Apply, Enabled, Displaces, LowInv;
    if run != [] {
      if Displaces(s, run[0]) {
        DisplacedIsGone(s, run[0]);
        RunStaysGone(Apply(s, run[0]), run[1..]);
      } else {
        StepKeeps(s, run[0]);
        HeldIff(Apply(s, run[0]), run[1..]);
      }
    }
  }

  // On arrival the dialled stream is closed exactly if the higher side then holds
  // another stream as ready.
  lemma ClosedOnArrivalIff(s: System)
    requires Inv(s) && s.main.Some? && Enabled(s, Incoming(High, s.main.value))
    ensures (High, s.main.value) in Apply(s, Incoming(High, s.main.value)).closed
       <==> s.high.ready && s.high.writer.Some?
  {
  }

  // A higher side that is not ready, with no greeting of the lower side left to be
  // read and no stream of its left to be taken.
  ghost predicate Quiet(s: System) {
    && (!Taken(s) ==> !s.high.ready)
    && (forall n :: (Low, n) in s.greeted ==> Some(n) == s.main)
    && (forall n :: (High, n) in s.arrived ==> Some(n) == s.main)
  }

  lemma StepKeepsQuiet(s: System, e: Event)
    requires Inv(s) && Quiet(s) && Enabled(s, e)
    ensures !Displaces(s, e) && Quiet(Apply(s, e))
  {
    StepKnown(s, e);
    OnlyMainIsGreeted(s, e);
    OnlyMainArrives(s, e);
    NotReadyUntilTaken(s, e);
    hide Known, LowInv, HighInv, Apply;
  }

  lemma OnlyMainArrives(s: System, e: Event)
    requires Inv(s) && Enabled(s, e)
    ensures forall n :: (High, n) in Apply(s, e).arrived ==> (High, n) in s.arrived || Some(n) == Apply(s, e).main
  {
    hide Known, HighInv;
  }

  lemma OnlyMainIsGreeted(s: System, e: Event)
    requires Inv(s) && Enabled(s, e)
    ensures forall n :: (Low, n) in Apply(s, e).greeted ==> (Low, n) in s.greeted || Some(n) == s.main
  {
    hide Known, HighInv;
  }

  lemma NotReadyUntilTaken(s: System, e: Event)
    requires Inv(s) && Quiet(s) && Enabled(s, e)
    ensures !Taken(Apply(s, e)) ==> !Apply(s, e).high.ready
  {
    hide Known, LowInv;
    KnownFacts(s);
  }

  // From there neither of the two steps can occur: whatever older stream or dial
  // the higher side holds, the dialled stream survives.
  lemma {:induction false} QuietIsNeverDisplaced(s: System, run: seq<Event>)
    requires Inv(s) && Quiet(s) && Legal(s, run)
    ensures !Displaced(s, run)
    decreases |run|
  {
    hide Inv, Apply, Enabled, Displaces, Quiet;
    if run != [] {
      StepKeepsQuiet(s, run[0]);
      StepKeeps(s, run[0]);
      QuietIsNeverDisplaced(Apply(s, run[0]), run[1..]);
    }
  }

  // It can otherwise: the lower side redials after losing stream 0, which the higher
  // side still holds as ready, and the new stream is closed on arrival.
  lemma ReadySessionRefusesRedial()
    ensures var s := System(Asked(), Peer(Some(0), true, false, NoDial, Listening, true), {0}, {}, {}, {}, None);
            var run := [BeginDial(Low), StreamUp(Low, 1), Incoming(High, 1)];
            && Redial(s) && Legal(s, run)
            && var t := Execute(s, run);
               t.main == Some(1) && (High, 1) in t.closed && t.high.writer == Some(0)
  {
    var s := System(Asked(), Peer(Some(0), true, false, NoDial, Listening, true), {0}, {}, {}, {}, None);
    var run := [BeginDial(Low), StreamUp(Low, 1), Incoming(High, 1)];
    var s1 := Apply(s, run[0]);
    var s2 := Apply(s1, run[1]);
    assert run[1..] == [run[1], run[2]] && run[1..][1..] == [run[2]] && run[1..][1..][1..] == [];
    assert Enabled(s2, run[2]);
  }

  // --------------------------------------------------------------- settling

  // Nothing of the lower side's dial is pending any more.
  predicate DialOver(s: System) {
    Taken(s) && s.low.dial.NoDial?
  }

  lemma StepStaysSettled(s: System, e: Event)
    requires Inv(s) && DialOver(s) && Enabled(s, e) && !Displaces(s, e)
    ensures DialOver(Apply(s, e)) && Apply(s, e).main == s.main
  {
    hide Known;
    KnownFacts(s);
  }

  lemma {:induction false} StaysSettled(s: System, run: seq<Event>)
    requires Inv(s) && DialOver(s) && Legal(s, run) && !Displaced(s, run)
    ensures DialOver(Execute(s, run)) && Execute(s, run).main == s.main
    decreases |run|
  {
    hide Inv, Apply, Enabled, Displaces, DialOver;
    if run != [] {
      StepStaysSettled(s, run[0]);
      StepKeeps(s, run[0]);
      StaysSettled(Apply(s, run[0]), run[1..]);
    }
  }

  // Both ends settle on that stream, and whatever happens later leaves them there.
  lemma BothEndsSettle(s: System, run: seq<Event>, later: seq<Event>)
    requires Redial(s) && Legal(s, run) && !Displaced(s, run) && DialOver(Execute(s, run))
    requires Legal(Execute(s, run), later) && !Displaced(Execute(s, run), later)
    ensures var (t, u) := (Execute(s, run), Execute(Execute(s, run), later));
            u.main == t.main && u.low.writer == u.high.writer == t.main
  {
    hide Legal, Execute, Displaced, Known;
    RedialInv(s);
    RunKeepsInv(s, run);
    StaysSettled(Execute(s, run), later);
    RunKeepsInv(Execute(s, run), later);
  }

  // How far the dial is from its end: the phase of the lower side, and whether the
  // higher side still has to take the stream.
  function Rank(s: System): nat {
    Phase(s.low.dial) + if Taken(s) then 0 else 1
  }

  function Phase(d: Dial): nat {
    match d
    case Requested => 4
    case Connecting => 3
    case Connected(_) => 2
    case Greeting(_, _) => 1
    case NoDial => 0
  }

  // The five steps of the dial: four on the lower side, one on the higher.
  predicate Settling(s: System, e: Event) {
    match e
    case BeginDial(x) => x == Low
    case StreamUp(x, _) => x == Low
    case ResumeDial(x) => x == Low
    case GreetingWritten(x) => x == Low
    case Incoming(x, n) => x == High && Some(n) == s.main
    case _ => false
  }

  // Each of them brings the dial one step nearer, and nothing takes it back.
  lemma StepRank(s: System, e: Event)
    requires Inv(s) && Enabled(s, e)
    ensures Rank(Apply(s, e)) == Rank(s) - (if Settling(s, e) then 1 else 0)
  {
    PhaseFalls(s, e);
    TakenOnce(s, e);
    hide Inv, Apply, Enabled, Taken, Phase;
  }

  lemma PhaseFalls(s: System, e: Event)
    requires Inv(s) && Enabled(s, e)
    ensures Phase(Apply(s, e).low.dial) == Phase(s.low.dial) - (if Settling(s, e) && e.x == Low then 1 else 0)
  {
    hide Known, HighInv;
  }

  lemma TakenOnce(s: System, e: Event)
    requires Inv(s) && Enabled(s, e)
    ensures Taken(Apply(s, e)) <==> Taken(s) || (Settling(s, e) && e.x == High)
    ensures Settling(s, e) && e.x == High ==> !Taken(s)
  {
    hide Known, HighInv;
    KnownFacts(s);
  }

  ghost function SettlingSteps(s: System, run: seq<Event>): nat
    requires Legal(s, run)
    decreases |run|
  {
    if run == [] then 0
    else (if Settling(s, run[0]) then 1 else 0) + SettlingSteps(Apply(s, run[0]), run[1..])
  }

  lemma {:induction false} RankFalls(s: System, run: seq<Event>)
    requires Inv(s) && Legal(s, run) && !Displaced(s, run)
    ensures Rank(Execute(s, run)) == Rank(s) - SettlingSteps(s, run)
    decreases |run|
  {
    hide Inv, Apply, Enabled, Rank, Settling, Displaces;
    if run != [] {
      StepRank(s, run[0]);
      StepKeeps(s, run[0]);
      RankFalls(Apply(s, run[0]), run[1..]);
    }
  }

  // Whatever else happens, the dial is over exactly after its five steps, no run
  // takes more of them, and the next one is always open: enabled, awaiting the
  // stream's coming up, or behind a handshake the higher side is writing.
  lemma SettlesInFiveSteps(s: System, run: seq<Event>)
    requires Redial(s) && Legal(s, run) && !Displaced(s, run)
    ensures var t := Execute(s, run);
            && SettlingSteps(s, run) <= 5
            && (DialOver(t) <==> SettlingSteps(s, run) == 5)
            && (!DialOver(t) ==>
                  || Enabled(t, BeginDial(Low)) || t.low.dial.Connecting?
                  || Enabled(t, ResumeDial(Low)) || Enabled(t, GreetingWritten(Low))
                  || (t.main.Some? && (Enabled(t, Incoming(High, t.main.value)) || Enabled(t, WelcomeWritten(High)))))
  {
    RedialInv(s);
    RunKeepsInv(s, run);
    RankFalls(s, run);
  }

  // ------------------------------------------------- a dial of the higher side

  // The two ways an identified caller is met: its stream becomes the entry's and gets
  // a handshake exactly if the entry holds no ready stream and, on the lower side,
  // neither holds a stream nor is connecting; otherwise it is closed and nothing else.
  lemma TakenIff(s: System, x: Side, n: nat)
    requires Enabled(s, Incoming(x, n))
    ensures var (t, p) := (Apply(s, Incoming(x, n)), s.At(x));
            if !(p.ready && p.writer.Some?) && (x == Low ==> p.writer.None? && !p.connecting)
            then t.At(x) == Peer(Some(n), false, false, NoDial, Welcoming(n, p.writer), false)
                 && t.greeted == s.greeted + {(x, n)} && t.closed == s.closed
            else t.At(x) == p && t.greeted == s.greeted && t.closed == s.closed + {(x, n)}
  {
  }

  // A dialled stream that has come up becomes the entry's and gets a handshake exactly
  // if the entry holds none meanwhile, or, on the lower side, one that is not ready.
  lemma DialTakesIff(s: System, x: Side)
    requires Enabled(s, ResumeDial(x))
    ensures var (t, p, n) := (Apply(s, ResumeDial(x)), s.At(x), s.At(x).dial.stream);
            if p.writer.None? || (x == Low && !p.ready)
            then t.At(x) == Peer(Some(n), false, false, Greeting(n, p.writer), p.accept, false)
                 && t.greeted == s.greeted + {(x, n)} && t.closed == s.closed
            else t.At(x) == p.(connecting := false, dial := NoDial)
                 && t.greeted == s.greeted && t.closed == s.closed + {(x, n)}
  {
  }

  // A dial that was asked for goes on exactly if the entry holds no stream by then.
  lemma DialGoesOnIff(s: System, x: Side)
    requires Enabled(s, BeginDial(x))
    ensures var (q, p) := (Apply(s, BeginDial(x)).At(x), s.At(x));
            if p.writer.None? then q.dial.Connecting? && q.connecting == p.connecting
            else q.dial.NoDial? && !q.connecting && q.writer == p.writer && q.ready == p.ready
  {
  }

  predicate Free(p: Peer) {
    p == Peer(None, false, false, NoDial, Listening, false)
  }

  // The higher side has asked for its dial while the lower side has nothing under
  // way, and no older stream is on its way to either.
  ghost predicate HigherRedial(s: System) {
    && Known(s) && s.main.None? && s.high == Asked() && Free(s.low)
    && forall x, n :: (x, n) !in s.arrived
  }

  // The stream of that dial, once it exists.
  function HighStream(s: System): Option<nat> {
    if s.high.dial.Connected? then Some(s.high.dial.stream) else s.high.writer
  }

  // What could come in between: the network, or a dial of the lower side, which is
  // then the one that prevails.
  predicate Meddles(s: System, e: Event) {
    match e
    case AskDial(x) => x == Low
    case DialFails(_) => true
    case Drop(_, n) => HighStream(s) == Some(n)
    case _ => false
  }

  ghost predicate Meddled(s: System, run: seq<Event>)
    requires Legal(s, run)
    decreases |run|
  {
    run != [] && (Meddles(s, run[0]) || Meddled(Apply(s, run[0]), run[1..]))
  }

  // The higher side goes through its dial and keeps its stream.
  ghost predicate HighHolds(s: System) {
    && s.high.accept.Listening?
    && match s.high.dial
       case Requested => s.high == Asked()
       case Connecting => s.high == Asked().(dial := Connecting)
       case Connected(n) => s.high == Asked().(dial := Connected(n))
       case Greeting(n, prior) =>
         s.high.writer == Some(n) && prior.None? && !s.high.connecting && (High, n) in s.greeted
       case NoDial =>
         s.high.writer.Some? && !s.high.connecting && s.high.watched && (High, s.high.writer.value) in s.greeted
  }

  // The lower side is free until it takes that stream, and keeps it then.
  ghost predicate LowFollows(s: System) {
    match HighStream(s)
    case None => Free(s.low) && forall x, n :: (x, n) !in s.arrived
    case Some(n) =>
      && (forall x, m :: (x, m) in s.arrived ==> (x, m) == (Low, n))
      && (if (Low, n) in s.arrived then Free(s.low)
          else s.low.writer == Some(n) && s.low.dial.NoDial? && !s.low.connecting && (Low, n) in s.greeted
               && (s.low.accept == Welcoming(n, None) || (s.low.accept.Listening? && s.low.watched)))
      && (Low, n) !in s.closed && (High, n) !in s.closed
  }

  ghost predicate HigherInv(s: System) {
    Known(s) && s.main.None? && HighHolds(s) && LowFollows(s)
  }

  lemma HighStepKeepsHigher(s: System, e: Event)
    requires HigherInv(s) && Enabled(s, e) && !Meddles(s, e) && !e.Drop? && e.x == High
    ensures HigherInv(Apply(s, e))
  {
    hide Known;
    StepKnown(s, e);
    KnownFacts(s);
  }

  lemma LowStepKeepsHigher(s: System, e: Event)
    requires HigherInv(s) && Enabled(s, e) && !Meddles(s, e) && !e.Drop? && e.x == Low
    ensures HigherInv(Apply(s, e))
  {
    hide Known;
    StepKnown(s, e);
    KnownFacts(s);
  }

  lemma DropKeepsHigher(s: System, e: Event)
    requires HigherInv(s) && Enabled(s, e) && !Meddles(s, e) && e.Drop?
    ensures HigherInv(Apply(s, e))
  {
    hide Known;
    StepKnown(s, e);
  }

  lemma StepKeepsHigher(s: System, e: Event)
    requires HigherInv(s) && Enabled(s, e) && !Meddles(s, e)
    ensures HigherInv(Apply(s, e))
  {
    hide HigherInv, Apply, Enabled, Meddles;
    if e.Drop? {
      DropKeepsHigher(s, e);
    } else if e.x == High {
      HighStepKeepsHigher(s, e);
    } else {
      LowStepKeepsHigher(s, e);
    }
  }

  function HighRank(s: System): nat {
    Phase(s.high.dial) + if s.low.writer.Some? then 0 else 1
  }

  // The five steps of this dial: four on the higher side, one on the lower.
  predicate HighSettling(s: System, e: Event) {
    match e
    case BeginDial(x) => x == High
    case StreamUp(x, _) => x == High
    case ResumeDial(x) => x == High
    case GreetingWritten(x) => x == High
    case Incoming(x, _) => x == Low
    case _ => false
  }

  lemma HighRankFalls(s: System, e: Event)
    requires HigherInv(s) && Enabled(s, e) && !Meddles(s, e)
    ensures HighRank(Apply(s, e)) == HighRank(s) - (if HighSettling(s, e) then 1 else 0)
  {
    hide Known;
  }

  ghost function HighSteps(s: System, run: seq<Event>): nat
    requires Legal(s, run)
    decreases |run|
  {
    if run == [] then 0
    else (if HighSettling(s, run[0]) then 1 else 0) + HighSteps(Apply(s, run[0]), run[1..])
  }

  lemma {:induction false} HigherRun(s: System, run: seq<Event>)
    requires HigherInv(s) && Legal(s, run) && !Meddled(s, run)
    ensures HigherInv(Execute(s, run))
    ensures HighRank(Execute(s, run)) == HighRank(s) - HighSteps(s, run)
    decreases |run|
  {
    hide HigherInv, Apply, Enabled, HighRank, HighSettling, Meddles;
    if run != [] {
      HighRankFalls(s, run[0]);
      StepKeepsHigher(s, run[0]);
      HigherRun(Apply(s, run[0]), run[1..]);
    }
  }

  // A dial of the higher side to a lower side with nothing under way settles as well:
  // unless something comes in between it is over exactly after its five steps, the
  // next one is always open or its stream awaited, and from then on both ends hold
  // its stream, whatever follows.
  lemma HigherDialSettles(s: System, run: seq<Event>)
    requires HigherRedial(s) && Legal(s, run) && !Meddled(s, run)
    ensures var t := Execute(s, run);
            && HighSteps(s, run) <= 5
            && (HighSteps(s, run) == 5 <==> t.high.dial.NoDial? && t.low.writer.Some?)
            && (HighSteps(s, run) == 5 ==> t.low.writer == t.high.writer && !Cut(t, t.high.writer))
            && (HighSteps(s, run) < 5 ==>
                  || Enabled(t, BeginDial(High)) || t.high.dial.Connecting?
                  || Enabled(t, ResumeDial(High)) || Enabled(t, GreetingWritten(High))
                  || (exists n :: HighStream(t) == Some(n) && Enabled(t, Incoming(Low, n))))
  {
    hide Known, Legal, Execute, Meddled, HighSteps;
    HigherRun(s, run);
    var t := Execute(s, run);
    if HighRank(t) > 0 && t.high.dial.NoDial? {
      assert Enabled(t, Incoming(Low, HighStream(t).value));
    }
  }

  // With the welcome written both ends read the stream and were sent a key on it, and
  // become ready with that.
  lemma HigherDialGetsReady(s: System, run: seq<Event>)
    requires HigherRedial(s) && Legal(s, run) && !Meddled(s, run) && HighSteps(s, run) == 5
    requires Execute(s, run).low.accept.Listening?
    ensures var t := Execute(s, run);
            && Enabled(t, KeyArrives(Low)) && Apply(t, KeyArrives(Low)).low.ready
            && Enabled(t, KeyArrives(High)) && Apply(t, KeyArrives(High)).high.ready
  {
    hide Known, Legal, Execute, Meddled, HighSteps;
    HigherRun(s, run);
  }

  // And if the lower side asks for a dial of its own before it took the stream, that
  // is the one to follow.
  lemma LowerDialTakesOver(s: System)
    requires HigherInv(s) && Enabled(s, AskDial(Low))
    ensures Redial(Apply(s, AskDial(Low)))
  {
    hide Known;
    StepKnown(s, AskDial(Low));
  }

  // -------------------------------------------------------- no entry is forgotten

  // A handshake under way is on the stream the entry holds.
  predicate Steady(p: Peer) {
    && (p.dial.Greeting? ==> p.writer == Some(p.dial.stream) && !p.watched && p.accept.Listening?)
    && (p.accept.Welcoming? ==> p.writer == Some(p.accept.stream) && p.dial.NoDial? && !p.watched)
  }

  // And it says that it is connecting exactly while a dial waits for its stream; then
  // it holds none.
  predicate Sane(p: Peer) {
    && Steady(p)
    && (p.connecting <==> p.dial.Requested? || p.dial.Connecting? || p.dial.Connected?)
    && (p.connecting ==> p.writer.None?)
    && (p.ready ==> p.watched) && (p.watched ==> p.writer.Some?)
  }

  lemma StepKeepsSane(s: System, e: Event, x: Side)
    requires Sane(s.At(x)) && Enabled(s, e)
    ensures Sane(Apply(s, e).At(x))
  {
  }

  lemma {:induction false} RunKeepsSane(s: System, run: seq<Event>, x: Side)
    requires Sane(s.At(x)) && Legal(s, run)
    ensures Sane(Execute(s, run).At(x))
    decreases |run|
  {
    hide Apply, Enabled, Sane;
    if run != [] {
      StepKeepsSane(s, run[0], x);
      RunKeepsSane(Apply(s, run[0]), run[1..], x);
    }
  }

  // From a free entry on, whatever both sides do: it can be dialled again exactly if
  // it holds no stream and no dial is under way, and a dial whose stream came up
  // never finds another in place, so the collision branch of the dial is never taken.
  lemma NoEntryIsForgotten(s: System, run: seq<Event>, x: Side)
    requires Free(s.At(x)) && Legal(s, run)
    ensures var (t, p) := (Execute(s, run), Execute(s, run).At(x));
            && (Enabled(t, AskDial(x)) <==> p.writer.None? && p.dial.NoDial?)
            && (p.dial.Connected? ==> p.writer.None? && !p.ready)
  {
    hide Legal, Execute;
    RunKeepsSane(s, run, x);
  }

  // A stream the entry holds, dials on, welcomes on or is about to replace.
  predicate Holds(p: Peer, n: nat) {
    || p.writer == Some(n)
    || (p.dial.Connected? && p.dial.stream == n)
    || (p.dial.Greeting? && (p.dial.stream == n || p.dial.prior == Some(n)))
    || (p.accept.Welcoming? && (p.accept.stream == n || p.accept.prior == Some(n)))
  }

  // The ways a stream is let go without being closed: a dial or its handshake fails, a
  // welcome fails that was to replace it, or a caller is taken while it is the stream
  // of a dial that is called off with that.
  predicate Abandons(s: System, e: Event, x: Side, n: nat) {
    match e
    case GreetingFails(y) => y == x
    case DialFails(y) => y == x
    case WelcomeFails(y) => y == x && Some(n) != s.At(x).writer
    case Incoming(y, m) =>
      && y == x && m != n && s.At(x).writer != Some(n) && (s.At(x).dial.Connected? || s.At(x).dial.Greeting?)
      && !(s.At(x).ready && s.At(x).writer.Some?) && (x == Low ==> s.At(x).writer.None? && !s.At(x).connecting)
    case _ => false
  }

  // Every stream a side held or was brought is held afterwards or closed, except
  // exactly in these cases.
  lemma LetGoIff(s: System, e: Event, x: Side, n: nat)
    requires Steady(s.At(x)) && Enabled(s, e)
    requires (Holds(s.At(x), n) || e == Incoming(x, n)) && (x, n) !in s.closed
    ensures !Holds(Apply(s, e).At(x), n) && (x, n) !in Apply(s, e).closed <==> Abandons(s, e, x, n)
  {
  }

  // ----------------------------------------------------------- freeing an entry

  // An entry that holds a stream and has nothing under way.
  predicate Resting(p: Peer) {
    p.writer.Some? && p.dial.NoDial? && p.accept.Listening?
  }

  // Such an entry can lose its stream exactly if someone reads it and an end of it
  // was closed, or if it is the higher side's, not ready, and another caller waits.
  lemma FreedIff(s: System, x: Side)
    requires Resting(s.At(x))
    ensures (exists e :: Enabled(s, e) && Apply(s, e).At(x).writer != s.At(x).writer)
       <==> || (s.At(x).watched && Cut(s, s.At(x).writer))
            || (x == High && !s.high.ready && exists n :: (High, n) in s.arrived && Some(n) != s.high.writer)
  {
    if s.At(x).watched && Cut(s, s.At(x).writer) {
      assert Enabled(s, StreamEnds(x)) && Apply(s, StreamEnds(x)).At(x).writer.None?;
    }
    if x == High && !s.high.ready && exists n :: (High, n) in s.arrived && Some(n) != s.high.writer {
      var n :| (High, n) in s.arrived && Some(n) != s.high.writer;
      assert Enabled(s, Incoming(High, n)) && Apply(s, Incoming(High, n)).high.writer == Some(n);
    }
  }

  // Nobody reads it.
  predicate Stuck(p: Peer) {
    Resting(p) && !p.watched && !p.ready
  }

  // While the accepting side writes its handshake, nobody reads the stream yet.
  predicate Unread(p: Peer) {
    p.accept.Welcoming? ==> p.writer.Some? && p.dial.NoDial? && !p.watched && !p.ready
  }

  lemma {:induction false} RunStaysUnread(s: System, run: seq<Event>)
    requires Unread(s.low) && Legal(s, run)
    ensures Unread(Execute(s, run).low)
    decreases |run|
  {
    hide Apply, Enabled, Unread;
    if run != [] {
      StepStaysUnread(s, run[0]);
      RunStaysUnread(Apply(s, run[0]), run[1..]);
    }
  }

  lemma StepStaysUnread(s: System, e: Event)
    requires Unread(s.low) && Enabled(s, e)
    ensures Unread(Apply(s, e).low)
  {
  }

  // A handshake that fails on the accepting lower side leaves its entry so for good:
  // no step at either end ever changes it again, so every caller is refused and no
  // dial starts.
  lemma FailedWelcomeIsForGood(s: System, run: seq<Event>, later: seq<Event>)
    requires s.low.accept.Listening? && Legal(s, run) && Enabled(Execute(s, run), WelcomeFails(Low))
    requires Legal(Apply(Execute(s, run), WelcomeFails(Low)), later)
    ensures var (t, u) := (Execute(s, run), Execute(Apply(Execute(s, run), WelcomeFails(Low)), later));
            Stuck(u.low) && u.low == t.low.(accept := Listening)
  {
    hide Legal, Execute;
    RunStaysUnread(s, run);
    LowerSideStaysStuck(Apply(Execute(s, run), WelcomeFails(Low)), later);
  }

  // No step at either end changes a stuck lower side.
  lemma {:induction false} LowerSideStaysStuck(s: System, run: seq<Event>)
    requires Stuck(s.low) && Legal(s, run)
    ensures Execute(s, run).low == s.low
    decreases |run|
  {
    hide Apply, Enabled, Stuck;
    if run != [] {
      StuckStep(s, run[0]);
      LowerSideStaysStuck(Apply(s, run[0]), run[1..]);
    }
  }

  lemma StuckStep(s: System, e: Event)
    requires Stuck(s.low) && Enabled(s, e)
    ensures Apply(s, e).low == s.low
  {
  }

  // ---------------------------------------------------------- the entry itself

  // One entry of group_peers, updated in place by the code between two awaits. The
  // results are the stream to close and the stream to greet.
  class Entry {
    const prefersOutbound: bool
    var writer: Option<nat>
    var ready: bool
    var connecting: bool
    var dial: Dial
    var accept: Accept
    var watched: bool

    function View(): Peer
      reads this
    {
      Peer(writer, ready, connecting, dial, accept, watched)
    }

    constructor (prefersOutbound: bool)
      ensures View() == Peer(None, false, false, NoDial, Listening, false) && this.prefersOutbound == prefersOutbound
    {
      this.prefersOutbound := prefersOutbound;
      writer, ready, connecting, dial, accept, watched := None, false, false, NoDial, Listening, false;
    }

    method BeginDial()
      modifies this
      ensures Outcome(View(), None, None) == Dialling(old(View()))
    {
      if writer.Some? {
        connecting := false;
        dial := NoDial;
        return;
      }
      dial := Connecting;
    }

    method ResumeDial(n: nat) returns (closes: Option<nat>, greets: Option<nat>)
      modifies this
      ensures Outcome(View(), closes, greets) == Resumed(old(View()), prefersOutbound, n)
    {
      var existing := writer;
      if (ready && existing.Some?) || (existing.Some? && !prefersOutbound) {
        connecting := false;
        dial := NoDial;
        return Some(n), None;
      }
      writer := Some(n);
      connecting := false;
      ready := false;
      watched := false;
      dial := Greeting(n, existing);
      return None, Some(n);
    }

    method FinishDial() returns (closes: Option<nat>)
      requires dial.Greeting?
      modifies this`dial, this`watched
      ensures Outcome(View(), closes, None) == DialDone(old(View()))
    {
      watched := true;
      closes := dial.prior;
      dial := NoDial;
    }

    method FailDial()
      modifies this
      ensures Outcome(View(), None, None) == DialFailed(old(View()))
    {
      writer := None;
      watched := false;
      connecting := false;
      dial := NoDial;
    }

    method AcceptCaller(n: nat) returns (closes: Option<nat>, greets: Option<nat>)
      modifies this
      ensures Outcome(View(), closes, greets) == Welcomed(old(View()), prefersOutbound, n)
    {
      var existing := writer;
      var collision := existing.Some? || connecting;
      if ready && existing.Some? {
        return Some(n), None;
      }
      if collision && prefersOutbound {
        return Some(n), None;
      }
      dial := NoDial;
      writer := Some(n);
      ready := false;
      connecting := false;
      watched := false;
      accept := Welcoming(n, existing);
      return None, Some(n);
    }

    method FinishAccept(failed: bool) returns (closes: Option<nat>)
      requires accept.Welcoming?
      modifies this`accept, this`watched
      ensures Outcome(View(), closes, None) == WelcomeDone(old(View()), failed)
    {
      closes := None;
      if !failed {
        watched := true;
        closes := accept.prior;
      }
      accept := Listening;
    }

    method EndStream() returns (closes: Option<nat>)
      modifies this
      ensures Outcome(View(), closes, None) == Ended(old(View()))
    {
      closes := writer;
      writer := None;
      watched := false;
      ready := false;
      connecting := false;
    }
  }
}
