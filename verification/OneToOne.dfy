// Who owns the 1:1 chat: the active stream, the pending incoming call, the
// outbound attempts that may be stale, and the flag that guards a promotion. The
// code is cut at its await points; between two of them anything else may run.
module OneToOne {
  import opened Basics

  datatype Phase =
    | Created                        // not run yet
    | Connecting                     // awaiting the stream
    | Ready(stream: nat)             // the stream is there
    | Discarding(stream: nat)        // awaiting the end of the pending call it replaces
    | Handshaking(stream: nat)       // installed, awaiting its handshake to be written

  datatype Attempt = Attempt(generation: nat, target: nat, phase: Phase, cancelled: bool)

  // /accept and /decline between their awaits; commands run one at a time.
  datatype Command =
    | Nothing
    | AcceptStopping(stream: nat)    // awaiting the pending call's reader to stop
    | AcceptGreeting(stream: nat)    // awaiting the handshake to be written
    | AcceptFailing                  // awaiting the failed stream to close
    | DeclineStopping
    | DeclineClosing

  datatype App = App(
    conn: Option<nat>,
    pending: Option<nat>,
    pendingFrom: nat,
    promoting: bool,
    generation: nat,
    target: Option<nat>,
    task: Option<nat>,
    attempts: map<nat, Attempt>,
    accepting: bool,                 // accept_loop awaits a caller
    command: Command,
    // History: task names ever used, and the attempt that installed conn.
    names: set<nat>,
    installedBy: Option<nat>)

  function Start(): App {
    App(None, None, 0, false, 0, None, None, map[], false, Nothing, {}, None)
  }

  // one_to_one_connect_active
  predicate Active(s: App) {
    s.task.Some? && s.task.value in s.attempts
  }

  // connect_attempt_is_current
  predicate Current(s: App, id: nat) {
    && id in s.attempts
    && s.attempts[id].generation == s.generation
    && s.target == Some(s.attempts[id].target)
    && s.task == Some(id)
  }

  // invalidate_one_to_one_connect
  function Invalidate(s: App): App {
    var cancelled :=
      if Active(s) then s.attempts[s.task.value := s.attempts[s.task.value].(cancelled := true)] else s.attempts;
    s.(generation := s.generation + 1, task := None, target := None, attempts := cancelled)
  }

  // The finally block of connect_to_peer; the attempt is over.
  function Finish(s: App, id: nat): App
    requires id in s.attempts
  {
    var t := s.(attempts := s.attempts - {id});
    if s.task == Some(id) then
      t.(task := None, target := if s.attempts[id].generation == s.generation then None else s.target)
    else t
  }

  function WithPhase(s: App, id: nat, phase: Phase): App
    requires id in s.attempts
  {
    s.(attempts := s.attempts[id := s.attempts[id].(phase := phase)])
  }

  function Install(s: App, id: nat, stream: nat): App
    requires id in s.attempts
  {
    WithPhase(s, id, Handshaking(stream)).(conn := Some(stream), installedBy := Some(id))
  }

  function DropConn(s: App, stream: nat): App {
    if s.conn == Some(stream) then s.(conn := None, installedBy := None) else s
  }

  // connect_to_peer from one await to the next, unless it was cancelled.
  function Proceed(s: App, id: nat, prefers: set<nat>): App
    requires id in s.attempts
  {
    var a := s.attempts[id];
    match a.phase
    case Created => if Current(s, id) then WithPhase(s, id, Connecting) else Finish(s, id)
    case Connecting => s
    case Ready(stream) =>
      if !Current(s, id) || s.conn.Some? then Finish(s, id)
      else if s.pending.Some? then
        if s.pendingFrom == a.target && a.target in prefers
        then WithPhase(s, id, Discarding(stream)).(pending := None, promoting := true)
        else Finish(s, id)
      else Install(s, id, stream)
    case Discarding(stream) =>
      var t := s.(promoting := false);
      if !Current(t, id) || t.conn.Some? || t.pending.Some? then Finish(t, id) else Install(t, id, stream)
    case Handshaking(_) => Finish(s, id)
  }

  // The same when the awaited call raised, by cancellation or by an error.
  function Abort(s: App, id: nat): App
    requires id in s.attempts
  {
    match s.attempts[id].phase
    case Discarding(_) => Finish(s.(promoting := false), id)
    case Handshaking(stream) => Finish(DropConn(s, stream), id)
    case _ => Finish(s, id)
  }

  datatype Event =
    | Connect(target: nat, id: nat)
    | StreamUp(id: nat, stream: nat)
    | Continue(id: nat)
    | Raise(id: nat)
    | Cancelled
    | Disconnect
    | Listen
    | NoCaller
    | Caller(stream: nat, from: nat)
    | PendingEnds
    | AcceptCall
    | DeclineCall
    | CommandContinues
    | AcceptFails
    | LiveEnds
    | SendFails

  predicate Enabled(s: App, e: Event) {
    match e
    case Connect(_, id) => !Active(s) && s.conn.None? && s.pending.None? && id !in s.names
    case StreamUp(id, _) => id in s.attempts && s.attempts[id].phase.Connecting? && !s.attempts[id].cancelled
    // A cancellation that arrives while the pending call is being stopped is swallowed there.
    case Continue(id) =>
      id in s.attempts && !s.attempts[id].phase.Connecting?
      && (s.attempts[id].cancelled ==> s.attempts[id].phase.Discarding?)
    case Raise(id) => id in s.attempts && (s.attempts[id].cancelled || !s.attempts[id].phase.Created?)
    case Cancelled => true
    case Disconnect => true
    case Listen => !s.accepting && s.conn.None? && s.pending.None? && !s.promoting
    case NoCaller => s.accepting
    case Caller(_, _) => s.accepting
    case PendingEnds => s.pending.Some?
    case AcceptCall => s.command.Nothing? && s.pending.Some?
    case DeclineCall => s.command.Nothing? && s.pending.Some?
    case CommandContinues => !s.command.Nothing?
    case AcceptFails => s.command.AcceptGreeting?
    case LiveEnds => s.conn.Some?
    case SendFails => s.conn.Some?
  }

  // accept_loop once a caller identified itself.
  function Called(s: App, stream: nat, from: nat, prefers: set<nat>): App {
    var t := s.(accepting := false);
    if s.conn.Some? || s.pending.Some? then t
    else if Active(s) && (s.target != Some(from) || from in prefers) then t
    else (if Active(s) then Invalidate(t) else t).(pending := Some(stream), pendingFrom := from)
  }

  function Apply(s: App, e: Event, prefers: set<nat>): App
    requires Enabled(s, e)
  {
    match e
    case Connect(target, id) =>
      s.(generation := s.generation + 1, target := Some(target), task := Some(id), names := s.names + {id},
      attempts := s.attempts[id := Attempt(s.generation + 1, target, Created, false)])
    case StreamUp(id, stream) => WithPhase(s, id, Ready(stream))
    case Continue(id) => Proceed(s, id, prefers)
    case Raise(id) => Abort(s, id)
    case Cancelled => Invalidate(s)
    case Disconnect => Invalidate(s).(conn := None, installedBy := None)
    case Listen => s.(accepting := true)
    case NoCaller => s.(accepting := false)
    case Caller(stream, from) => Called(s, stream, from, prefers)
    case PendingEnds => s.(pending := None)
    case AcceptCall =>
      s.(promoting := true, conn := s.pending, installedBy := None, command := AcceptStopping(s.pending.value))
    case DeclineCall => s.(promoting := true, command := DeclineStopping)
    case CommandContinues =>
      (match s.command
       case AcceptStopping(stream) => s.(pending := None, command := AcceptGreeting(stream))
       case DeclineStopping => s.(pending := None, command := DeclineClosing)
       case _ => s.(promoting := false, command := Nothing))
    case AcceptFails => DropConn(s, s.command.stream).(command := AcceptFailing)
    case LiveEnds => Invalidate(s).(conn := None, installedBy := None)
    case SendFails => s.(conn := None, installedBy := None)
  }

  ghost predicate Legal(s: App, run: seq<Event>, prefers: set<nat>)
    decreases |run|
  {
    run != [] ==> Enabled(s, run[0]) && Legal(Apply(s, run[0], prefers), run[1..], prefers)
  }

  ghost function Execute(s: App, run: seq<Event>, prefers: set<nat>): App
    requires Legal(s, run, prefers)
    decreases |run|
  {
    if run == [] then s else Execute(Apply(s, run[0], prefers), run[1..], prefers)
  }

  // ------------------------------------------------------------- invariant

  ghost predicate Inv(s: App) {
    && s.attempts.Keys <= s.names
    && (forall id :: id in s.attempts ==> s.attempts[id].generation <= s.generation && !s.attempts[id].phase.Discarding?)
    && (s.pending.Some? ==> !Active(s))
    && (s.promoting <==> !s.command.Nothing?)
    && (s.promoting || s.pending.Some? ==> !s.accepting)
    && (s.conn.Some? && s.pending.Some? ==>
          s.conn == s.pending && s.command == AcceptStopping(s.pending.value))
  }

  lemma ProceedKeeps(s: App, id: nat, prefers: set<nat>)
    requires Inv(s) && Enabled(s, Continue(id))
    ensures Inv(Apply(s, Continue(id), prefers))
  {
    hide Finish, Install;
    FinishKeeps(s, id);
    if s.conn.None? && s.pending.None? {
      InstallKeeps(s, id);
    }
  }

  lemma FinishKeeps(s: App, id: nat)
    requires Inv(s) && id in s.attempts
    ensures Inv(Finish(s, id))
  {
  }

  lemma InstallKeeps(s: App, id: nat)
    requires Inv(s) && id in s.attempts && s.conn.None? && s.pending.None?
    ensures forall stream :: Inv(Install(s, id, stream))
  {
  }

  lemma AbortKeeps(s: App, id: nat)
    requires Inv(s) && id in s.attempts
    ensures Inv(Abort(s, id))
  {
    hide Finish;
    FinishKeeps(s, id);
    match s.attempts[id].phase
    case Handshaking(stream) => FinishKeeps(DropConn(s, stream), id);
    case _ =>
  }

  lemma CalledKeeps(s: App, stream: nat, from: nat, prefers: set<nat>)
    requires Inv(s) && s.accepting
    ensures Inv(Called(s, stream, from, prefers))
  {
  }

  lemma StepKeeps(s: App, e: Event, prefers: set<nat>)
    requires Inv(s) && Enabled(s, e)
    ensures Inv(Apply(s, e, prefers))
  {
    hide Proceed, Abort, Called;
    match e
    case Continue(id) => ProceedKeeps(s, id, prefers);
    case Raise(id) => AbortKeeps(s, id);
    case Caller(stream, from) => CalledKeeps(s, stream, from, prefers);
    case _ =>
  }

  lemma {:induction false} RunKeepsInv(s: App, run: seq<Event>, prefers: set<nat>)
    requires Inv(s) && Legal(s, run, prefers)
    ensures Inv(Execute(s, run, prefers))
    decreases |run|
  {
    hide Inv, Enabled, Apply;
    if run != [] {
      StepKeeps(s, run[0], prefers);
      RunKeepsInv(Apply(s, run[0], prefers), run[1..], prefers);
    }
  }

  // At every await point: an active and a pending stream exist together only
  // while the pending one is being promoted, and then they are the same.
  lemma OneOwner(run: seq<Event>, prefers: set<nat>)
    requires Legal(Start(), run, prefers)
    ensures var s := Execute(Start(), run, prefers);
            s.conn.Some? && s.pending.Some? ==> s.promoting && s.conn == s.pending
  {
    RunKeepsInv(Start(), run, prefers);
  }

  // A pending call and a current attempt never coexist, so the branch of
  // connect_to_peer that would discard a pending call is never taken.
  lemma NeverDiscardsPending(run: seq<Event>, prefers: set<nat>, id: nat)
    requires Legal(Start(), run, prefers)
    ensures var s := Execute(Start(), run, prefers);
            && (s.pending.Some? ==> !Current(s, id))
            && (id in s.attempts ==> !s.attempts[id].phase.Discarding?)
  {
    RunKeepsInv(Start(), run, prefers);
  }

  // ------------------------------------------------------- stale attempts

  lemma StaleStep(s: App, e: Event, prefers: set<nat>, id: nat)
    requires Inv(s) && Enabled(s, e)
    requires id in s.names && !Current(s, id) && s.installedBy != Some(id)
    ensures var t := Apply(s, e, prefers);
            id in t.names && !Current(t, id) && t.installedBy != Some(id)
  {
    match e
    case Continue(other) => StaleContinue(s, other, prefers, id);
    case Raise(other) => StaleRaise(s, other, id);
    case _ =>
  }

  lemma StaleContinue(s: App, other: nat, prefers: set<nat>, id: nat)
    requires Inv(s) && Enabled(s, Continue(other))
    requires id in s.names && !Current(s, id) && s.installedBy != Some(id)
    ensures var t := Proceed(s, other, prefers);
            id in t.names && !Current(t, id) && t.installedBy != Some(id)
  {
  }

  lemma StaleRaise(s: App, other: nat, id: nat)
    requires other in s.attempts
    requires id in s.names && !Current(s, id) && s.installedBy != Some(id)
    ensures var t := Abort(s, other);
            id in t.names && !Current(t, id) && t.installedBy != Some(id)
  {
  }

  // An attempt that was invalidated, replaced or finished never installs its
  // stream, whatever runs afterwards.
  lemma {:induction false} StaleNeverInstalls(s: App, run: seq<Event>, prefers: set<nat>, id: nat)
    requires Inv(s) && Legal(s, run, prefers)
    requires id in s.names && !Current(s, id) && s.installedBy != Some(id)
    ensures Execute(s, run, prefers).installedBy != Some(id)
    decreases |run|
  {
    hide Inv, Enabled, Apply, Current;
    if run != [] {
      StaleStep(s, run[0], prefers, id);
      StepKeeps(s, run[0], prefers);
      StaleNeverInstalls(Apply(s, run[0], prefers), run[1..], prefers, id);
    }
  }

  // Over whole runs: an attempt whose generation, target or task is not the
  // current one any more can never take the chat over later.
  lemma StaleAttemptNeverInstalls(before: seq<Event>, after: seq<Event>, prefers: set<nat>, id: nat)
    requires Legal(Start(), before, prefers)
    requires var s := Execute(Start(), before, prefers);
             id in s.names && !Current(s, id) && s.installedBy != Some(id) && Legal(s, after, prefers)
    ensures Execute(Execute(Start(), before, prefers), after, prefers).installedBy != Some(id)
  {
    RunKeepsInv(Start(), before, prefers);
    StaleNeverInstalls(Execute(Start(), before, prefers), after, prefers, id);
  }

  // Invalidating makes every attempt there is stale.
  lemma InvalidatedNeverInstalls(before: seq<Event>, after: seq<Event>, prefers: set<nat>, id: nat)
    requires Legal(Start(), before, prefers)
    requires var s := Execute(Start(), before, prefers);
             id in s.attempts && s.installedBy != Some(id) && Legal(Invalidate(s), after, prefers)
    ensures Execute(Invalidate(Execute(Start(), before, prefers)), after, prefers).installedBy != Some(id)
  {
    var s := Execute(Start(), before, prefers);
    RunKeepsInv(Start(), before, prefers);
    StepKeeps(s, Cancelled, prefers);
    StaleNeverInstalls(Invalidate(s), after, prefers, id);
  }

  // --------------------------------------------------- what does come about

  // The task is the one current attempt, and there is a target exactly with it; the
  // attempt that installed a stream is past that.
  ghost predicate Tracked(s: App) {
    && (s.task.Some? ==> Current(s, s.task.value))
    && (s.target.Some? ==> s.task.Some?)
    && (s.installedBy.Some? ==> s.installedBy.value in s.names)
    && (s.installedBy.Some? && s.installedBy.value in s.attempts ==> s.attempts[s.installedBy.value].phase.Handshaking?)
  }

  lemma ContinueTracks(s: App, id: nat, prefers: set<nat>)
    requires Inv(s) && Tracked(s) && Enabled(s, Continue(id))
    ensures Tracked(Proceed(s, id, prefers))
  {
    hide Install, Finish, WithPhase;
    FinishTracks(s, id);
    PhaseTracks(s, id);
    if Current(s, id) && s.attempts[id].phase.Ready? {
      InstallTracks(s, id, s.attempts[id].phase.stream);
    }
  }

  lemma FinishTracks(s: App, id: nat)
    requires Tracked(s) && id in s.attempts
    ensures Tracked(Finish(s, id))
  {
  }

  lemma PhaseTracks(s: App, id: nat)
    requires Tracked(s) && id in s.attempts
    ensures forall phase: Phase :: phase.Handshaking? || s.installedBy != Some(id) ==> Tracked(WithPhase(s, id, phase))
  {
  }

  lemma InstallTracks(s: App, id: nat, stream: nat)
    requires Inv(s) && Tracked(s) && id in s.attempts
    ensures Tracked(Install(s, id, stream))
  {
  }

  lemma AbortTracks(s: App, id: nat)
    requires Inv(s) && Tracked(s) && id in s.attempts
    ensures Tracked(Abort(s, id))
  {
    hide Finish;
    FinishTracks(s, id);
    match s.attempts[id].phase
    case Handshaking(stream) => FinishTracks(DropConn(s, stream), id);
    case _ =>
  }

  lemma StepTracks(s: App, e: Event, prefers: set<nat>)
    requires Inv(s) && Tracked(s) && Enabled(s, e)
    ensures Tracked(Apply(s, e, prefers))
  {
    hide Proceed, Abort;
    match e
    case Continue(id) => ContinueTracks(s, id, prefers);
    case Raise(id) => AbortTracks(s, id);
    case _ =>
  }

  lemma {:induction false} RunTracks(s: App, run: seq<Event>, prefers: set<nat>)
    requires Inv(s) && Tracked(s) && Legal(s, run, prefers)
    ensures Inv(Execute(s, run, prefers)) && Tracked(Execute(s, run, prefers))
    decreases |run|
  {
    hide Inv, Tracked, Enabled, Apply;
    if run != [] {
      StepKeeps(s, run[0], prefers);
      StepTracks(s, run[0], prefers);
      RunTracks(Apply(s, run[0], prefers), run[1..], prefers);
    }
  }

  // No dial is forgotten: in every reachable state a task that is set is an attempt
  // under way, of the current generation and for the current target, and without one
  // there is no target, so that the next dial can start.
  lemma TaskIsCurrent(run: seq<Event>, prefers: set<nat>)
    requires Legal(Start(), run, prefers)
    ensures var s := Execute(Start(), run, prefers);
            && (s.task.Some? ==> Current(s, s.task.value))
            && (s.task.None? <==> s.target.None?)
            && (s.attempts == map[] && s.conn.None? && s.pending.None? ==>
                  forall address, id :: id !in s.names ==> Enabled(s, Connect(address, id)))
  {
    RunTracks(Start(), run, prefers);
  }

  // An attempt whose stream is there takes the chat over exactly if its generation,
  // target and task are the current ones and nobody holds or asks for the chat.
  // Otherwise it is over and leaves both streams as they are.
  lemma InstalledIff(run: seq<Event>, prefers: set<nat>, id: nat, stream: nat)
    requires Legal(Start(), run, prefers)
    requires var s := Execute(Start(), run, prefers);
             Enabled(s, Continue(id)) && s.attempts[id].phase == Ready(stream)
    ensures var s := Execute(Start(), run, prefers);
            var t := Apply(s, Continue(id), prefers);
            && (t.conn == Some(stream) && t.installedBy == Some(id)
                <==> && s.attempts[id].generation == s.generation && s.target == Some(s.attempts[id].target)
                     && s.task == Some(id) && s.conn.None? && s.pending.None?)
            && t.pending == s.pending
            && (t.installedBy != Some(id) ==> t.conn == s.conn && t.attempts == s.attempts - {id})
  {
    hide Legal, Execute;
    RunTracks(Start(), run, prefers);
  }

  // Left alone, a dial that may start connects: each of its steps is open in turn, and
  // it ends as the chat's stream with the next dial free to start after it.
  lemma DialConnects(run: seq<Event>, prefers: set<nat>, address: nat, id: nat, stream: nat)
    requires Legal(Start(), run, prefers) && Enabled(Execute(Start(), run, prefers), Connect(address, id))
    ensures var s := Execute(Start(), run, prefers);
            var dial := [Connect(address, id), Continue(id), StreamUp(id, stream), Continue(id), Continue(id)];
            && Legal(s, dial, prefers)
            && var t := Execute(s, dial, prefers);
               t.conn == Some(stream) && t.task.None? && t.target.None? && t.attempts == s.attempts && t.pending.None?
  {
    var s := Execute(Start(), run, prefers);
    RunTracks(Start(), run, prefers);
    var dial := [Connect(address, id), Continue(id), StreamUp(id, stream), Continue(id), Continue(id)];
    var t1 := Apply(s, dial[0], prefers);
    var t2 := Apply(t1, dial[1], prefers);
    var t3 := Apply(t2, dial[2], prefers);
    var t4 := Apply(t3, dial[3], prefers);
    assert t4.conn == Some(stream) && t4.attempts[id].phase == Handshaking(stream);
    var t5 := Apply(t4, dial[4], prefers);
    assert t5.attempts == s.attempts;
    hide Apply, Enabled, Inv, Tracked;
    OneEvent(t4, dial[4], [], prefers);
    OneEvent(t3, dial[3], [dial[4]], prefers);
    OneEvent(t2, dial[2], [dial[3], dial[4]], prefers);
    OneEvent(t1, dial[1], [dial[2], dial[3], dial[4]], prefers);
    OneEvent(s, dial[0], [dial[1], dial[2], dial[3], dial[4]], prefers);
    assert dial == [dial[0]] + [dial[1], dial[2], dial[3], dial[4]];
  }

  lemma OneEvent(s: App, e: Event, rest: seq<Event>, prefers: set<nat>)
    requires Enabled(s, e) && Legal(Apply(s, e, prefers), rest, prefers)
    ensures Legal(s, [e] + rest, prefers)
    ensures Execute(s, [e] + rest, prefers) == Execute(Apply(s, e, prefers), rest, prefers)
  {
    assert ([e] + rest)[1..] == rest;
  }

  // The end of an attempt, in whichever way: it is off the list, and if it was the
  // task then a new dial can start. An error takes back the stream it had installed;
  // a handshake that was written leaves it.
  lemma AttemptEnds(run: seq<Event>, prefers: set<nat>, id: nat, failed: bool)
    requires Legal(Start(), run, prefers)
    requires var s := Execute(Start(), run, prefers);
             if failed then Enabled(s, Raise(id)) else Enabled(s, Continue(id)) && s.attempts[id].phase.Handshaking?
    ensures var s := Execute(Start(), run, prefers);
            var t := Apply(s, if failed then Raise(id) else Continue(id), prefers);
            && t.attempts == s.attempts - {id} && t.pending == s.pending
            && (if s.task == Some(id) then t.task.None? && t.target.None? else t.task == s.task && t.target == s.target)
            && t.conn == (match s.attempts[id].phase
                          case Handshaking(stream) => if failed && s.conn == Some(stream) then None else s.conn
                          case _ => s.conn)
  {
    hide Legal, Execute;
    RunTracks(Start(), run, prefers);
  }

  // A caller is kept pending exactly if the chat is free and no dial is under way, or
  // the one under way is to this very peer and the tie-break prefers the call; then
  // that dial is called off. Otherwise nothing but the listening ends.
  lemma BecomesPendingIff(run: seq<Event>, prefers: set<nat>, stream: nat, from: nat)
    requires Legal(Start(), run, prefers) && Enabled(Execute(Start(), run, prefers), Caller(stream, from))
    ensures var s := Execute(Start(), run, prefers);
            var t := Apply(s, Caller(stream, from), prefers);
            && (t.pending == Some(stream) && t.pendingFrom == from
                <==> s.conn.None? && s.pending.None? && (s.task.None? || (s.target == Some(from) && from !in prefers)))
            && (t.pending != Some(stream) ==> t == s.(accepting := false))
            && (t.pending == Some(stream) ==> t.task.None? && t.target.None? && t.attempts.Keys == s.attempts.Keys)
            && t.conn == s.conn && !t.accepting
  {
    hide Legal, Execute;
    RunTracks(Start(), run, prefers);
  }

  // Calling a dial off leaves it nothing but to raise what cancelled it.
  lemma CalledOffIsCancelled(run: seq<Event>, prefers: set<nat>)
    requires Legal(Start(), run, prefers) && Execute(Start(), run, prefers).task.Some?
    ensures var s := Execute(Start(), run, prefers);
            var t := Apply(s, Cancelled, prefers);
            && !Enabled(t, Continue(s.task.value)) && Enabled(t, Raise(s.task.value))
            && t.task.None? && t.target.None?
            && forall id :: id in t.attempts ==> t.attempts[id].generation < t.generation
  {
    hide Legal, Execute;
    RunTracks(Start(), run, prefers);
  }

  // Accepting a pending call makes it the chat, declining it leaves neither; once its
  // awaits are over nothing is being promoted any more.
  lemma CommandEnds(run: seq<Event>, prefers: set<nat>, accept: bool)
    requires Legal(Start(), run, prefers)
    requires Enabled(Execute(Start(), run, prefers), if accept then AcceptCall else DeclineCall)
    ensures var s := Execute(Start(), run, prefers);
            var t := Apply(s, if accept then AcceptCall else DeclineCall, prefers);
            && Enabled(t, CommandContinues)
            && var u := Apply(t, CommandContinues, prefers);
               && Enabled(u, CommandContinues)
               && var v := Apply(u, CommandContinues, prefers);
                  && v.conn == (if accept then s.pending else s.conn)
                  && v.pending.None? && !v.promoting && v.command.Nothing?
                  && v.attempts == s.attempts && v.task == s.task
  {
    hide Legal, Execute;
    RunTracks(Start(), run, prefers);
  }

  // Left alone, a caller gets through: it is listened for, kept pending and accepted.
  lemma CallGetsThrough(run: seq<Event>, prefers: set<nat>, stream: nat, from: nat)
    requires Legal(Start(), run, prefers) && Enabled(Execute(Start(), run, prefers), Listen)
    requires Execute(Start(), run, prefers).task.None?
    ensures var s := Execute(Start(), run, prefers);
            var call := [Listen, Caller(stream, from), AcceptCall, CommandContinues, CommandContinues];
            && Legal(s, call, prefers)
            && var t := Execute(s, call, prefers);
               t.conn == Some(stream) && t.pending.None? && !t.promoting && t.pendingFrom == from
  {
    var s := Execute(Start(), run, prefers);
    RunTracks(Start(), run, prefers);
    var call := [Listen, Caller(stream, from), AcceptCall, CommandContinues, CommandContinues];
    var t1 := Apply(s, call[0], prefers);
    var t2 := Apply(t1, call[1], prefers);
    var t3 := Apply(t2, call[2], prefers);
    var t4 := Apply(t3, call[3], prefers);
    var t5 := Apply(t4, call[4], prefers);
    assert t5.conn == Some(stream) && t5.pending.None?;
    hide Apply, Enabled, Inv, Tracked;
    OneEvent(t4, call[4], [], prefers);
    OneEvent(t3, call[3], [call[4]], prefers);
    OneEvent(t2, call[2], [call[3], call[4]], prefers);
    OneEvent(t1, call[1], [call[2], call[3], call[4]], prefers);
    OneEvent(s, call[0], [call[1], call[2], call[3], call[4]], prefers);
    assert call == [call[0]] + [call[1], call[2], call[3], call[4]];
  }

  // What ends the chat on this stream: the stream itself, the user, or the failure of
  // the handshake it was to begin with.
  predicate EndsChat(s: App, e: Event, stream: nat) {
    match e
    case LiveEnds => true
    case SendFails => true
    case Disconnect => true
    case AcceptFails => s.command == AcceptGreeting(stream)
    case Raise(id) => id in s.attempts && s.attempts[id].phase == Handshaking(stream)
    case _ => false
  }

  // What makes this stream the chat: an accepted call, or a current attempt.
  predicate BeginsChat(s: App, e: Event, stream: nat) {
    match e
    case AcceptCall => s.pending == Some(stream)
    case Continue(id) => Current(s, id) && s.attempts[id].phase == Ready(stream) && s.conn.None? && s.pending.None?
    case _ => false
  }

  // In every reachable state and for every step: a stream is the chat's afterwards
  // exactly if it begins with this step, or it was and does not end with it.
  lemma ChatHeldIff(run: seq<Event>, prefers: set<nat>, e: Event, stream: nat)
    requires Legal(Start(), run, prefers) && Enabled(Execute(Start(), run, prefers), e)
    ensures var s := Execute(Start(), run, prefers);
            (Apply(s, e, prefers).conn == Some(stream)
             <==> BeginsChat(s, e, stream) || (s.conn == Some(stream) && !EndsChat(s, e, stream)))
  {
    hide Legal, Execute;
    RunTracks(Start(), run, prefers);
    ChatAfter(Execute(Start(), run, prefers), prefers, e, stream);
  }

  lemma ChatAfter(s: App, prefers: set<nat>, e: Event, stream: nat)
    requires Inv(s) && Tracked(s) && Enabled(s, e)
    ensures Apply(s, e, prefers).conn == Some(stream)
       <==> BeginsChat(s, e, stream) || (s.conn == Some(stream) && !EndsChat(s, e, stream))
  {
  }

  // And a call is pending afterwards exactly if it is kept with this step, or it was and
  // neither ends, is accepted to the end, nor declined.
  lemma PendingHeldIff(run: seq<Event>, prefers: set<nat>, e: Event, stream: nat)
    requires Legal(Start(), run, prefers) && Enabled(Execute(Start(), run, prefers), e)
    ensures var s := Execute(Start(), run, prefers);
            (Apply(s, e, prefers).pending == Some(stream)
             <==> || (e.Caller? && e.stream == stream && s.conn.None?
                      && (s.task.None? || (s.target == Some(e.from) && e.from !in prefers)))
                  || (s.pending == Some(stream) && !e.PendingEnds?
                      && !(e.CommandContinues? && (s.command.AcceptStopping? || s.command.DeclineStopping?))))
  {
    hide Legal, Execute;
    RunTracks(Start(), run, prefers);
    PendingAfter(Execute(Start(), run, prefers), prefers, e, stream);
  }

  lemma PendingAfter(s: App, prefers: set<nat>, e: Event, stream: nat)
    requires Inv(s) && Tracked(s) && Enabled(s, e)
    ensures Apply(s, e, prefers).pending == Some(stream)
       <==> || (e.Caller? && e.stream == stream && s.conn.None?
                && (s.task.None? || (s.target == Some(e.from) && e.from !in prefers)))
            || (s.pending == Some(stream) && !e.PendingEnds?
                && !(e.CommandContinues? && (s.command.AcceptStopping? || s.command.DeclineStopping?)))
  {
  }

  // -------------------------------------------------------- the chat itself

  // The fields of the app, updated in place by the code between two awaits. Each
  // method is one such stretch.
  class Chat {
    const prefers: set<nat>
    var conn: Option<nat>
    var pending: Option<nat>
    var pendingFrom: nat
    var promoting: bool
    var generation: nat
    var target: Option<nat>
    var task: Option<nat>
    var attempts: map<nat, Attempt>
    var accepting: bool
    var command: Command
    ghost var names: set<nat>
    ghost var installedBy: Option<nat>

    ghost function View(): App
      reads this
    {
      App(conn, pending, pendingFrom, promoting, generation, target, task, attempts, accepting, command, names, installedBy)
    }

    constructor (prefers: set<nat>)
      ensures View() == Start() && this.prefers == prefers
    {
      this.prefers := prefers;
      conn, pending, pendingFrom, promoting, generation := None, None, 0, false, 0;
      target, task, attempts, accepting, command, names, installedBy := None, None, map[], false, Nothing, {}, None;
    }

    predicate ConnectActive()
      reads this
    {
      task.Some? && task.value in attempts
    }

    // connect_attempt_is_current
    predicate IsCurrent(id: nat)
      reads this
    {
      && id in attempts
      && generation == attempts[id].generation
      && target == Some(attempts[id].target)
      && task == Some(id)
    }

    // unavailable: the session is closing or offline.
    method StartConnect(address: Option<nat>, unavailable: bool, id: nat) returns (started: bool)
      requires id !in names
      modifies this
      ensures started <==> address.Some? && !unavailable && Enabled(old(View()), Connect(address.value, id))
      ensures View() == if started then Apply(old(View()), Connect(address.value, id), prefers) else old(View())
    {
      if address.None? {
        return false;
      }
      if unavailable {
        return false;
      }
      if ConnectActive() {
        return false;
      }
      if conn.Some? || pending.Some? {
        return false;
      }
      generation := generation + 1;
      target := address;
      attempts := attempts[id := Attempt(generation, address.value, Created, false)];
      task := Some(id);
      names := names + {id};
      return true;
    }

    method InvalidateConnect()
      modifies this`generation, this`task, this`target, this`attempts
      ensures View() == Invalidate(old(View()))
    {
      if ConnectActive() {
        attempts := attempts[task.value := attempts[task.value].(cancelled := true)];
      }
      generation := generation + 1;
      task := None;
      target := None;
    }

    method FinishConnect(id: nat)
      requires id in attempts
      modifies this`attempts, this`task, this`target
      ensures View() == Finish(old(View()), id)
    {
      var own := attempts[id].generation;
      attempts := attempts - {id};
      if task == Some(id) {
        task := None;
        if own == generation {
          target := None;
        }
      }
    }

    // connect_to_peer, from where it was waiting to its next await or its end.
    method ContinueConnect(id: nat)
      requires Enabled(View(), Continue(id))
      modifies this
      ensures View() == Apply(old(View()), Continue(id), prefers)
    {
      var attempt := attempts[id];
      match attempt.phase {
        case Created =>
          if !IsCurrent(id) {
            FinishConnect(id);
            return;
          }
          attempts := attempts[id := attempt.(phase := Connecting)];
        case Ready(stream) =>
          if !IsCurrent(id) || conn.Some? {
            FinishConnect(id);
            return;
          }
          if pending.Some? {
            if pendingFrom != attempt.target || attempt.target !in prefers {
              FinishConnect(id);
              return;
            }
            promoting := true;
            pending := None;
            attempts := attempts[id := attempt.(phase := Discarding(stream))];
            return;
          }
          InstallConnection(id, stream);
        case Discarding(stream) =>
          promoting := false;
          if !IsCurrent(id) || conn.Some? || pending.Some? {
            FinishConnect(id);
            return;
          }
          InstallConnection(id, stream);
        case Handshaking(_) =>
          FinishConnect(id);
      }
    }

    method InstallConnection(id: nat, stream: nat)
      requires id in attempts
      modifies this`conn, this`installedBy, this`attempts
      ensures View() == Install(old(View()), id, stream)
    {
      conn := Some(stream);
      installedBy := Some(id);
      attempts := attempts[id := attempts[id].(phase := Handshaking(stream))];
    }

    // connect_to_peer when what it awaited raised.
    method AbortConnect(id: nat)
      requires id in attempts
      modifies this
      ensures View() == Abort(old(View()), id)
    {
      match attempts[id].phase {
        case Discarding(_) => promoting := false;
        case Handshaking(stream) =>
          if conn == Some(stream) {
            conn := None;
            installedBy := None;
          }
        case _ =>
      }
      FinishConnect(id);
    }

    // accept_loop once the caller's address is known. A caller that is not the stored
    // peer, or not under its stored destination, is not admitted.
    method CallerArrives(stream: nat, from: nat, admitted: bool)
      modifies this
      ensures View() == if admitted then Called(old(View()), stream, from, prefers) else old(View()).(accepting := false)
    {
      accepting := false;
      if conn.Some? {
        return;
      }
      if pending.Some? {
        return;
      }
      if !admitted {
        return;
      }
      if ConnectActive() {
        if target != Some(from) || from in prefers {
          return;
        }
        InvalidateConnect();
      }
      pending := Some(stream);
      pendingFrom := from;
    }

    // accept_pending_incoming up to its first await; dead: the caller is gone already.
    method AcceptPending(dead: bool) returns (accepted: bool)
      requires command.Nothing?
      modifies this
      ensures accepted <==> old(pending).Some? && !dead
      ensures View() == if accepted then Apply(old(View()), AcceptCall, prefers) else old(View()).(pending := None)
    {
      if pending.None? {
        return false;
      }
      if dead {
        pending := None;
        return false;
      }
      promoting := true;
      conn := pending;
      installedBy := None;
      command := AcceptStopping(pending.value);
      return true;
    }
  }
}
