// The live session-key handshake: the E2E object both sides keep, and the two
// first-in first-out streams between a caller and a callee. Keys are symbolic:
// a Diffie-Hellman secret is the unordered pair of private keys, a KEM secret
// names the key pair and the seed of one encapsulation.
module Handshake {
  import opened Basics

  datatype Classical = Dh(low: nat, high: nat)

  datatype Ciphertext = Ciphertext(kem: nat, seed: nat)

  datatype PqSecret = Kem(kem: nat, seed: nat) | Rejected(kem: nat, ciphertext: Ciphertext)

  datatype SessionKey = HybridKey(classical: Classical, pq: PqSecret) | ClassicalKey(classical: Classical)

  function DhOf(a: nat, b: nat): Classical {
    if a <= b then Dh(a, b) else Dh(b, a)
  }

  function Decapsulate(kem: nat, c: Ciphertext): PqSecret {
    if c.kem == kem then Kem(kem, c.seed) else Rejected(kem, c)
  }

  // private and kem stand for the key pairs this side generated.
  datatype Keys = Keys(
    pqEnabled: bool,
    private: nat,
    kem: nat,
    classical: Option<Classical>,
    pq: Option<PqSecret>,
    session: Option<SessionKey>)
  {
    // A session key exists only when every secret it needs does, and is made of
    // the current ones.
    predicate Valid() {
      session == (
        if classical.None? then None
        else if !pqEnabled then Some(ClassicalKey(classical.value))
        else if pq.None? then None
        else Some(HybridKey(classical.value, pq.value)))
    }
  }

  function NewKeys(pqEnabled: bool, private: nat, kem: nat): Keys {
    Keys(pqEnabled, private, kem, None, None, None)
  }

  // finalize_session_key_if_ready
  function Finalized(k: Keys): Keys {
    if k.classical.None? then k
    else if !k.pqEnabled then k.(session := Some(ClassicalKey(k.classical.value)))
    else if k.pq.None? then k
    else k.(session := Some(HybridKey(k.classical.value, k.pq.value)))
  }

  function WithPeerKey(k: Keys, public: nat): Keys {
    Finalized(k.(classical := Some(DhOf(k.private, public))))
  }

  function WithPqSecret(k: Keys, secret: PqSecret): Keys {
    Finalized(k.(pq := Some(secret)))
  }

  datatype PqError = PqDisabled

  // e2e.py's object, updated in place.
  class E2E {
    const pqEnabled: bool
    const private: nat
    const kem: nat
    var classicalShared: Option<Classical>
    var pqShared: Option<PqSecret>
    var sessionKey: Option<SessionKey>

    function View(): Keys
      reads this
    {
      Keys(pqEnabled, private, kem, classicalShared, pqShared, sessionKey)
    }

    constructor (pqEnabled: bool, private: nat, kem: nat)
      ensures View() == NewKeys(pqEnabled, private, kem) && View().Valid()
    {
      this.pqEnabled, this.private, this.kem := pqEnabled, private, kem;
      classicalShared, pqShared, sessionKey := None, None, None;
    }

    method FinalizeSessionKeyIfReady()
      modifies this`sessionKey
      ensures View() == Finalized(old(View()))
    {
      if classicalShared.None? {
        return;
      }
      if pqEnabled {
        if pqShared.None? {
          return;
        }
        sessionKey := Some(HybridKey(classicalShared.value, pqShared.value));
      } else {
        sessionKey := Some(ClassicalKey(classicalShared.value));
      }
    }

    method ReceivePeerKey(public: nat)
      requires View().Valid()
      modifies this
      ensures View() == WithPeerKey(old(View()), public) && View().Valid()
    {
      classicalShared := Some(DhOf(private, public));
      FinalizeSessionKeyIfReady();
    }

    method ReceivePeerPqPublic(public: nat, seed: nat) returns (r: Result<Ciphertext, PqError>)
      requires View().Valid()
      modifies this
      ensures View().Valid()
      ensures if pqEnabled
              then r == Ok(Ciphertext(public, seed)) && View() == WithPqSecret(old(View()), Kem(public, seed))
              else r == Err(PqDisabled) && View() == old(View())
    {
      if !pqEnabled {
        return Err(PqDisabled);
      }
      pqShared := Some(Kem(public, seed));
      FinalizeSessionKeyIfReady();
      return Ok(Ciphertext(public, seed));
    }

    method ReceivePeerPqCiphertext(c: Ciphertext) returns (r: Result<(), PqError>)
      requires View().Valid()
      modifies this
      ensures View().Valid()
      ensures if pqEnabled
              then r == Ok(()) && View() == WithPqSecret(old(View()), Decapsulate(kem, c))
              else r == Err(PqDisabled) && View() == old(View())
    {
      if !pqEnabled {
        return Err(PqDisabled);
      }
      pqShared := Some(Decapsulate(kem, c));
      FinalizeSessionKeyIfReady();
      return Ok(());
    }
  }

  // ----------------------------------------------------------- two streams

  datatype Body = KemPublic(kem: nat) | KemReply(c: Ciphertext) | Sealed(key: SessionKey, inner: Body)

  datatype Msg = K(public: nat) | Q(body: Body) | Y(body: Body)

  // E2E.decrypt: what does not open under the session key comes back unchanged.
  function Decrypt(k: Keys, body: Body): Body {
    if k.session.Some? && body.Sealed? && body.key == k.session.value then body.inner else body
  }

  // handle_parsed_frame for the key frames: the new keys and the frames sent back.
  function Handle(k: Keys, m: Msg, seed: nat): (Keys, seq<Msg>) {
    match m
    case K(public) => (WithPeerKey(k, public), [])
    case Q(body) =>
      (match Decrypt(k, body)
       case KemPublic(kem) =>
         if k.pqEnabled then (WithPqSecret(k, Kem(kem, seed)), [Y(KemReply(Ciphertext(kem, seed)))]) else (k, [])
       case _ => (k, []))
    case Y(body) =>
      (match Decrypt(k, body)
       case KemReply(c) => if k.pqEnabled then (WithPqSecret(k, Decapsulate(k.kem, c)), []) else (k, [])
       case _ => (k, []))
  }

  function Greeting(k: Keys): seq<Msg> {
    if k.pqEnabled then [K(k.private), Q(KemPublic(k.kem))] else [K(k.private)]
  }

  // The call from the moment the caller has sent its handshake. The last three
  // fields are history: how many frames each side handled, and whether the callee
  // had handled the whole greeting when it accepted.
  datatype Call = Call(
    caller: Keys,
    callee: Keys,
    toCallee: seq<Msg>,
    toCaller: seq<Msg>,
    accepted: bool,
    calleeGot: nat,
    callerGot: nat,
    greetedFirst: bool)

  datatype Setup = Setup(pq: bool, caller: nat, callee: nat, callerKem: nat, calleeKem: nat,
                         callerSeed: nat, calleeSeed: nat)

  function CallerKeys(u: Setup): Keys {
    NewKeys(u.pq, u.caller, u.callerKem)
  }

  function CalleeKeys(u: Setup): Keys {
    NewKeys(u.pq, u.callee, u.calleeKem)
  }

  function Start(u: Setup): Call {
    Call(CallerKeys(u), CalleeKeys(u), Greeting(CallerKeys(u)), [], false, 0, 0, false)
  }

  datatype Event = CalleeReads | CallerReads | Accept

  predicate Enabled(c: Call, e: Event) {
    match e
    case CalleeReads => c.toCallee != []
    case CallerReads => c.toCaller != []
    case Accept => !c.accepted
  }

  function Apply(u: Setup, c: Call, e: Event): Call
    requires Enabled(c, e)
  {
    match e
    case CalleeReads =>
      var (k, reply) := Handle(c.callee, c.toCallee[0], u.calleeSeed);
      c.(callee := k, toCallee := c.toCallee[1..], toCaller := c.toCaller + reply, calleeGot := c.calleeGot + 1)
    case CallerReads =>
      var (k, reply) := Handle(c.caller, c.toCaller[0], u.callerSeed);
      c.(caller := k, toCaller := c.toCaller[1..], toCallee := c.toCallee + reply, callerGot := c.callerGot + 1)
    case Accept =>
      c.(accepted := true, toCaller := c.toCaller + Greeting(c.callee),
      greetedFirst := c.calleeGot >= |Greeting(CallerKeys(u))|)
  }

  ghost predicate Legal(u: Setup, c: Call, run: seq<Event>)
    decreases |run|
  {
    run != [] ==> Enabled(c, run[0]) && Legal(u, Apply(u, c, run[0]), run[1..])
  }

  ghost function Execute(u: Setup, c: Call, run: seq<Event>): Call
    requires Legal(u, c, run)
    decreases |run|
  {
    if run == [] then c else Execute(u, Apply(u, c, run[0]), run[1..])
  }

  // ------------------------------------------------------------- invariant

  // Everything put into the stream to the caller so far.
  function SentToCaller(u: Setup, c: Call): seq<Msg> {
    var reply := if u.pq && c.calleeGot >= 2 then [Y(KemReply(Ciphertext(u.callerKem, u.calleeSeed)))] else [];
    var greeting := if c.accepted then Greeting(CalleeKeys(u)) else [];
    if c.greetedFirst || !c.accepted then reply + greeting else greeting + reply
  }

  // How many frames the caller reads up to and including the callee's Q.
  function QPosition(u: Setup, c: Call): nat {
    if c.greetedFirst then 3 else 2
  }

  function SentToCallee(u: Setup, c: Call): seq<Msg> {
    Greeting(CallerKeys(u)) +
      if u.pq && c.accepted && c.callerGot >= QPosition(u, c)
      then [Y(KemReply(Ciphertext(u.calleeKem, u.callerSeed)))] else []
  }

  function AfterAll(k: Keys, ms: seq<Msg>, seed: nat): Keys {
    if ms == [] then k else Handle(AfterAll(k, ms[..|ms| - 1], seed), ms[|ms| - 1], seed).0
  }

  ghost predicate Inv(u: Setup, c: Call) {
    && (c.greetedFirst ==> c.accepted && c.calleeGot >= |Greeting(CallerKeys(u))|)
    && c.callerGot <= |SentToCaller(u, c)| && c.toCaller == SentToCaller(u, c)[c.callerGot..]
    && c.calleeGot <= |SentToCallee(u, c)| && c.toCallee == SentToCallee(u, c)[c.calleeGot..]
    && c.caller == AfterAll(CallerKeys(u), SentToCaller(u, c)[..c.callerGot], u.callerSeed)
    && c.callee == AfterAll(CalleeKeys(u), SentToCallee(u, c)[..c.calleeGot], u.calleeSeed)
  }

  lemma {:induction false} SameParty(k: Keys, ms: seq<Msg>, seed: nat)
    ensures var j := AfterAll(k, ms, seed); j.private == k.private && j.kem == k.kem && j.pqEnabled == k.pqEnabled
    ensures k.Valid() ==> AfterAll(k, ms, seed).Valid()
  {
    if ms != [] {
      SameParty(k, ms[..|ms| - 1], seed);
    }
  }

  lemma ReadNext(k: Keys, sent: seq<Msg>, got: nat, seed: nat)
    requires got < |sent|
    ensures AfterAll(k, sent[..got + 1], seed) == Handle(AfterAll(k, sent[..got], seed), sent[got], seed).0
  {
    assert sent[..got + 1][..got] == sent[..got];
  }

  lemma NextOf(sent: seq<Msg>, got: nat, rest: seq<Msg>)
    requires got <= |sent| && rest == sent[got..] && rest != []
    ensures got < |sent| && rest[0] == sent[got] && rest[1..] == sent[got + 1..]
  {
  }

  lemma SentMore(sent: seq<Msg>, got: nat, rest: seq<Msg>, more: seq<Msg>)
    requires got <= |sent| && rest == sent[got..]
    ensures rest + more == (sent + more)[got..] && (sent + more)[..got] == sent[..got]
  {
  }

  // What a side sends on reading its next frame.
  lemma CalleeReply(u: Setup, c: Call)
    requires Inv(u, c) && c.toCallee != []
    ensures var d := Apply(u, c, CalleeReads);
            && SentToCallee(u, d) == SentToCallee(u, c)
            && SentToCaller(u, d) == SentToCaller(u, c) + Handle(c.callee, c.toCallee[0], u.calleeSeed).1
  {
    hide AfterAll, Handle, SentToCallee;
    CalleeAnswers(u, c);
  }

  lemma CalleeAnswers(u: Setup, c: Call)
    requires Inv(u, c) && c.toCallee != []
    ensures Handle(c.callee, c.toCallee[0], u.calleeSeed).1
         == if u.pq && c.calleeGot == 1 then [Y(KemReply(Ciphertext(u.callerKem, u.calleeSeed)))] else []
    ensures SentToCallee(u, Apply(u, c, CalleeReads)) == SentToCallee(u, c)
  {
    hide AfterAll, WithPqSecret, WithPeerKey, SentToCaller;
    var sent := SentToCallee(u, c);
    SameParty(CalleeKeys(u), sent[..c.calleeGot], u.calleeSeed);
    NextOf(sent, c.calleeGot, c.toCallee);
  }

  lemma CallerReply(u: Setup, c: Call)
    requires Inv(u, c) && c.toCaller != []
    ensures var d := Apply(u, c, CallerReads);
            && SentToCaller(u, d) == SentToCaller(u, c)
            && SentToCallee(u, d) == SentToCallee(u, c) + Handle(c.caller, c.toCaller[0], u.callerSeed).1
  {
    hide AfterAll, WithPqSecret, WithPeerKey;
    var sent := SentToCaller(u, c);
    SameParty(CallerKeys(u), sent[..c.callerGot], u.callerSeed);
    NextOf(sent, c.callerGot, c.toCaller);
  }

  lemma CalleeReadKeeps(u: Setup, c: Call)
    requires Inv(u, c) && c.toCallee != []
    ensures Inv(u, Apply(u, c, CalleeReads))
  {
    hide AfterAll, Handle, SentToCaller, SentToCallee, CallerKeys, CalleeKeys, Greeting;
    CalleeReply(u, c);
    var sent := SentToCallee(u, c);
    NextOf(sent, c.calleeGot, c.toCallee);
    ReadNext(CalleeKeys(u), sent, c.calleeGot, u.calleeSeed);
    SentMore(SentToCaller(u, c), c.callerGot, c.toCaller, Handle(c.callee, c.toCallee[0], u.calleeSeed).1);
  }

  lemma CallerReadKeeps(u: Setup, c: Call)
    requires Inv(u, c) && c.toCaller != []
    ensures Inv(u, Apply(u, c, CallerReads))
  {
    hide AfterAll, Handle, SentToCaller, SentToCallee, CallerKeys, CalleeKeys, Greeting;
    CallerReply(u, c);
    var sent := SentToCaller(u, c);
    NextOf(sent, c.callerGot, c.toCaller);
    ReadNext(CallerKeys(u), sent, c.callerGot, u.callerSeed);
    SentMore(SentToCallee(u, c), c.calleeGot, c.toCallee, Handle(c.caller, c.toCaller[0], u.callerSeed).1);
  }

  lemma AcceptKeeps(u: Setup, c: Call)
    requires Inv(u, c) && !c.accepted
    ensures Inv(u, Apply(u, c, Accept))
  {
    hide AfterAll;
    var d := Apply(u, c, Accept);
    SameParty(CalleeKeys(u), SentToCallee(u, c)[..c.calleeGot], u.calleeSeed);
    assert SentToCaller(u, d) == SentToCaller(u, c) + Greeting(CalleeKeys(u));
    assert SentToCaller(u, d)[..c.callerGot] == SentToCaller(u, c)[..c.callerGot];
    assert SentToCallee(u, d) == SentToCallee(u, c);
  }

  lemma {:induction false} RunKeepsInv(u: Setup, c: Call, run: seq<Event>)
    requires Inv(u, c) && Legal(u, c, run)
    ensures Inv(u, Execute(u, c, run))
    decreases |run|
  {
    hide Inv;
    if run != [] {
      match run[0] {
        case CalleeReads => CalleeReadKeeps(u, c);
        case CallerReads => CallerReadKeeps(u, c);
        case Accept => AcceptKeeps(u, c);
      }
      RunKeepsInv(u, Apply(u, c, run[0]), run[1..]);
    }
  }

  lemma StartInv(u: Setup)
    ensures Inv(u, Start(u))
  {
  }

  // --------------------------------------------------------------- outcome

  function Shared(u: Setup): Classical {
    DhOf(u.caller, u.callee)
  }

  lemma AfterThree(k: Keys, a: Msg, b: Msg, c: Msg, seed: nat)
    ensures AfterAll(k, [a, b, c], seed) == Handle(Handle(Handle(k, a, seed).0, b, seed).0, c, seed).0
  {
    hide Handle;
    assert [a, b, c][..2] == [a, b] && [a, b][..1] == [a] && [a][..0] == [];
    assert AfterAll(k, [a], seed) == Handle(k, a, seed).0;
    assert AfterAll(k, [a, b], seed) == Handle(AfterAll(k, [a], seed), b, seed).0;
    assert AfterAll(k, [a, b, c], seed) == Handle(AfterAll(k, [a, b], seed), c, seed).0;
  }

  lemma CalleeOutcome(u: Setup, k: Keys)
    requires u.pq
    requires k == AfterAll(CalleeKeys(u), [K(u.caller), Q(KemPublic(u.callerKem)),
                                           Y(KemReply(Ciphertext(u.calleeKem, u.callerSeed)))], u.calleeSeed)
    ensures k.session == Some(HybridKey(Shared(u), Kem(u.calleeKem, u.callerSeed)))
  {
    AfterThree(CalleeKeys(u), K(u.caller), Q(KemPublic(u.callerKem)),
               Y(KemReply(Ciphertext(u.calleeKem, u.callerSeed))), u.calleeSeed);
  }

  lemma CallerOutcome(u: Setup, k: Keys, greetedFirst: bool)
    requires u.pq
    requires var reply := Y(KemReply(Ciphertext(u.callerKem, u.calleeSeed)));
             var (key, q) := (K(u.callee), Q(KemPublic(u.calleeKem)));
             k == AfterAll(CallerKeys(u), if greetedFirst then [reply, key, q] else [key, q, reply], u.callerSeed)
    ensures k.session == Some(HybridKey(Shared(u),
              if greetedFirst then Kem(u.calleeKem, u.callerSeed) else Kem(u.callerKem, u.calleeSeed)))
  {
    var reply := Y(KemReply(Ciphertext(u.callerKem, u.calleeSeed)));
    AfterThree(CallerKeys(u), reply, K(u.callee), Q(KemPublic(u.calleeKem)), u.callerSeed);
    AfterThree(CallerKeys(u), K(u.callee), Q(KemPublic(u.calleeKem)), reply, u.callerSeed);
  }

  predicate Drained(c: Call) {
    c.accepted && c.toCallee == [] && c.toCaller == []
  }

  // With the hybrid handshake both ends always end with a session key, and it is
  // the same key exactly if the callee had handled the caller's K and Q before it
  // accepted.
  lemma HybridAgreesIff(u: Setup, run: seq<Event>)
    requires u.pq && u.callerKem != u.calleeKem
    requires Legal(u, Start(u), run) && Drained(Execute(u, Start(u), run))
    ensures var c := Execute(u, Start(u), run);
            && c.caller.session.Some? && c.callee.session.Some?
            && (c.caller.session == c.callee.session <==> c.greetedFirst)
  {
    var c := Execute(u, Start(u), run);
    StartInv(u);
    RunKeepsInv(u, Start(u), run);
    DrainedStreams(u, c);
    CalleeOutcome(u, c.callee);
    CallerOutcome(u, c.caller, c.greetedFirst);
  }

  lemma DrainedStreams(u: Setup, c: Call)
    requires u.pq && Inv(u, c) && Drained(c)
    ensures var reply := Y(KemReply(Ciphertext(u.callerKem, u.calleeSeed)));
            var (key, q) := (K(u.callee), Q(KemPublic(u.calleeKem)));
            c.caller == AfterAll(CallerKeys(u), if c.greetedFirst then [reply, key, q] else [key, q, reply], u.callerSeed)
    ensures c.callee == AfterAll(CalleeKeys(u), [K(u.caller), Q(KemPublic(u.callerKem)),
                                                 Y(KemReply(Ciphertext(u.calleeKem, u.callerSeed)))], u.calleeSeed)
  {
    hide AfterAll;
    assert c.callerGot == |SentToCaller(u, c)| && c.calleeGot == |SentToCallee(u, c)|;
    assert SentToCaller(u, c)[..c.callerGot] == SentToCaller(u, c);
    assert SentToCallee(u, c)[..c.calleeGot] == SentToCallee(u, c);
    var reply := Y(KemReply(Ciphertext(u.callerKem, u.calleeSeed)));
    assert SentToCaller(u, c) ==
      if c.greetedFirst then [reply, K(u.callee), Q(KemPublic(u.calleeKem))]
      else [K(u.callee), Q(KemPublic(u.calleeKem)), reply];
    assert SentToCallee(u, c) == [K(u.caller), Q(KemPublic(u.callerKem)),
                                  Y(KemReply(Ciphertext(u.calleeKem, u.callerSeed)))];
  }

  // Without PQ both ends end with the same key whenever the callee accepts.
  lemma ClassicalAgrees(u: Setup, run: seq<Event>)
    requires !u.pq
    requires Legal(u, Start(u), run) && Drained(Execute(u, Start(u), run))
    ensures var c := Execute(u, Start(u), run);
            c.caller.session == c.callee.session == Some(ClassicalKey(Shared(u)))
  {
    var c := Execute(u, Start(u), run);
    StartInv(u);
    RunKeepsInv(u, Start(u), run);
    assert SentToCaller(u, c) == [K(u.callee)] && SentToCallee(u, c) == [K(u.caller)];
    assert c.callerGot == 1 && c.calleeGot == 1;
    assert [K(u.callee)][..1] == [K(u.callee)] && [K(u.caller)][..1] == [K(u.caller)];
    assert [K(u.callee)][..0] == [] && [K(u.caller)][..0] == [];
  }

  // In every reachable state a session key rests on all the secrets of its mode.
  lemma SessionKeyNeedsItsSecrets(u: Setup, run: seq<Event>)
    requires Legal(u, Start(u), run)
    ensures var c := Execute(u, Start(u), run);
            forall k :: k in {c.caller, c.callee} && k.session.Some? ==>
              k.classical.Some? && (u.pq ==> k.pq.Some? && k.session.value == HybridKey(k.classical.value, k.pq.value))
  {
    var c := Execute(u, Start(u), run);
    StartInv(u);
    RunKeepsInv(u, Start(u), run);
    SameParty(CallerKeys(u), SentToCaller(u, c)[..c.callerGot], u.callerSeed);
    SameParty(CalleeKeys(u), SentToCallee(u, c)[..c.calleeGot], u.calleeSeed);
  }
}
