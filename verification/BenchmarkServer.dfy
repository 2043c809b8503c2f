/**
 The life of one benchmark llama-server: its process, the goroutine that reaps it through a
 one-slot channel, the health poll and Stop. The process may exit, replies may arrive and
 timeouts may fire at any point, so a run is any sequence of events.
 */
module BenchmarkServer {

  datatype Phase =
    | Polling                // waiting for /health to answer 200
    | Unhealthy              // the health wait returned an error
    | Healthy                // startup succeeded
    | Stopping               // interrupt sent, Stop selects on exit or deadline
    | Stopped(killed: bool)  // Stop returned; killed says which branch it took

  /**
   `reaped` says the reaper has sent, `buffered` that its message sits in the channel,
   `pollTookExit` that the health poll received it.
   */
  datatype Server = Server(phase: Phase, alive: bool, reaped: bool, buffered: bool, pollTookExit: bool,
                           startupOver: bool, deadlineOver: bool, interrupts: nat, kills: nat)

  const STARTED := Server(Polling, true, false, false, false, false, false, 0, 0)

  datatype Event =
    | ProcessExits
    | ReaperSends
    | StartupExpires   // the startup timeout fires or the session is cancelled
    | HealthOk
    | PollSeesExit
    | PollGivesUp
    | Interrupt        // Stop begins
    | DeadlineExpires  // the stop context ends
    | StopSeesExit
    | StopKills

  /** An event that is not possible in the current state leaves it unchanged. */
  function Next(s: Server, e: Event): Server {
    match e
    case ProcessExits => s.(alive := false)
    case ReaperSends => if !s.alive && !s.reaped && !s.buffered then s.(reaped := true, buffered := true) else s
    case StartupExpires => s.(startupOver := true)
    case HealthOk => if s.phase == Polling then s.(phase := Healthy) else s
    case PollSeesExit =>
      if s.phase == Polling && s.buffered then s.(phase := Unhealthy, buffered := false, pollTookExit := true) else s
    case PollGivesUp => if s.phase == Polling && s.startupOver then s.(phase := Unhealthy) else s
    case Interrupt =>
      if s.phase == Unhealthy || s.phase == Healthy then s.(phase := Stopping, interrupts := s.interrupts + 1) else s
    case DeadlineExpires => if s.phase == Stopping then s.(deadlineOver := true) else s
    case StopSeesExit =>
      if s.phase == Stopping && s.buffered then s.(phase := Stopped(false), buffered := false) else s
    case StopKills =>
      if s.phase == Stopping && s.deadlineOver then s.(phase := Stopped(true), kills := s.kills + 1) else s
  }

  ghost predicate Inv(s: Server) {
    && (s.reaped ==> !s.alive)
    && (s.buffered ==> s.reaped)
    && (s.pollTookExit ==> s.reaped && !s.buffered && s.phase in {Unhealthy, Stopping, Stopped(true)})
    && (s.reaped && !s.buffered && !s.pollTookExit ==> s.phase == Stopped(false))
    && (s.phase == Stopped(false) ==> s.reaped && !s.pollTookExit)
    && s.interrupts == (if s.phase == Stopping || s.phase.Stopped? then 1 else 0)
    && s.kills == (if s.phase == Stopped(true) then 1 else 0)
    && (s.phase == Stopped(true) ==> s.deadlineOver)
    && (s.deadlineOver ==> s.phase == Stopping || s.phase.Stopped?)
  }

  lemma NextKeepsInv(s: Server, e: Event)
    requires Inv(s)
    ensures Inv(Next(s, e))
  {
  }

  /** The reaper's only send finds the slot free: it never blocks. */
  lemma ReaperNeverBlocks(s: Server)
    requires Inv(s) && !s.alive && !s.reaped
    ensures Next(s, ReaperSends).reaped && Next(s, ReaperSends).buffered
  {
  }

  /**
   What a returned Stop means: exactly one interrupt; a kill, at most one, only after the
   deadline; and without a kill the process has exited. If the health poll already took the
   exit message, Stop can only return through the deadline and the kill.
   */
  lemma StoppedMeans(s: Server)
    requires Inv(s) && s.phase.Stopped?
    ensures s.interrupts == 1 && s.kills <= 1
    ensures s.kills == 1 <==> s.phase.killed
    ensures s.kills == 1 ==> s.deadlineOver
    ensures s.kills == 0 ==> !s.alive && s.reaped
    ensures s.pollTookExit ==> s.kills == 1
  {
  }

  function After(s: Server, es: seq<Event>): Server {
    if es == [] then s else Next(After(s, es[..|es| - 1]), es[|es| - 1])
  }

  lemma NextProgresses(s: Server, e: Event)
    ensures s.phase == Stopping || s.phase.Stopped? ==>
      Next(s, e).phase == Stopping || Next(s, e).phase.Stopped?
    ensures s.deadlineOver ==> Next(s, e).deadlineOver
    ensures s.phase.Stopped? ==> Next(s, e).phase == s.phase
    ensures s.pollTookExit ==> Next(s, e).pollTookExit
  {
  }

  /** Nothing undoes a running Stop, its deadline or its return. */
  lemma {:induction false} StopOnlyProgresses(s: Server, es: seq<Event>)
    requires s.phase == Stopping || s.phase.Stopped?
    ensures After(s, es).phase == Stopping || After(s, es).phase.Stopped?
    ensures s.deadlineOver ==> After(s, es).deadlineOver
    ensures s.phase.Stopped? ==> After(s, es).phase == s.phase
  {
    hide Next;
    if es != [] {
      StopOnlyProgresses(s, es[..|es| - 1]);
      NextProgresses(After(s, es[..|es| - 1]), es[|es| - 1]);
    }
  }

  lemma {:induction false} AfterSplit(s: Server, es: seq<Event>, fs: seq<Event>)
    ensures After(s, es + fs) == After(After(s, es), fs)
  {
    if fs == [] {
      assert es + fs == es;
    } else {
      AfterSplit(s, es, fs[..|fs| - 1]);
      assert (es + fs)[..|es + fs| - 1] == es + fs[..|fs| - 1];
    }
  }

  /** The deadline fires and the deadline branch of the select runs later, other events around them. */
  function Timeout(before: seq<Event>, between: seq<Event>, after: seq<Event>): seq<Event> {
    before + [DeadlineExpires] + between + [StopKills] + after
  }

  /**
   Stop never hangs: once it has begun, any run in which its deadline fires and the deadline
   branch gets its turn later ends with Stop returned, whatever else happens in between.
   */
  lemma StopReturns(s: Server, before: seq<Event>, between: seq<Event>, after: seq<Event>)
    requires s.phase == Stopping
    ensures After(s, Timeout(before, between, after)).phase.Stopped?
  {
    hide After, Next;
    StopOnlyProgresses(s, before);
    var s1 := After(s, before);
    OneEvent(s1, DeadlineExpires);
    AfterSplit(s, before, [DeadlineExpires]);
    var s2 := After(s1, [DeadlineExpires]);
    StopOnlyProgresses(s2, between);
    AfterSplit(s, before + [DeadlineExpires], between);
    var s3 := After(s2, between);
    OneEvent(s3, StopKills);
    AfterSplit(s, before + [DeadlineExpires] + between, [StopKills]);
    StopOnlyProgresses(After(s3, [StopKills]), after);
    AfterSplit(s, before + [DeadlineExpires] + between + [StopKills], after);
  }

  lemma OneEvent(s: Server, e: Event)
    ensures After(s, [e]) == Next(s, e)
    ensures s.phase == Stopping && e == DeadlineExpires ==> Next(s, e).deadlineOver && Next(s, e).phase == Stopping
    ensures s.phase == Stopping && e == StopKills && s.deadlineOver ==> Next(s, e).phase == Stopped(true)
    ensures s.phase.Stopped? ==> Next(s, e).phase == s.phase && Next(s, e).deadlineOver == s.deadlineOver
  {
    assert [e][..0] == [];
  }

  // ---------------------------------------------------------------------
  // Servers that exit before they are healthy
  // ---------------------------------------------------------------------

  lemma {:induction false} AfterKeepsInv(s: Server, es: seq<Event>)
    requires Inv(s)
    ensures Inv(After(s, es))
    ensures s.pollTookExit ==> After(s, es).pollTookExit
  {
    hide Inv, Next;
    if es != [] {
      AfterKeepsInv(s, es[..|es| - 1]);
      NextKeepsInv(After(s, es[..|es| - 1]), es[|es| - 1]);
      NextProgresses(After(s, es[..|es| - 1]), es[|es| - 1]);
    }
  }

  /** The health wait ends in three ways only: a 200, the exit message, or its deadline. */
  lemma PollEnds(s: Server, e: Event)
    requires s.phase == Polling
    ensures Next(s, e).phase ==
            if e == HealthOk then Healthy
            else if e == PollSeesExit && s.buffered then Unhealthy
            else if e == PollGivesUp && s.startupOver then Unhealthy
            else Polling
  {
  }

  lemma StartedInv()
    ensures Inv(STARTED)
  {
  }

  /**
   A server that has exited and been reaped when Stop begins can be stopped without a kill
   exactly when the health poll did not take its exit message; otherwise Stop always lasts
   until its deadline.
   */
  lemma KilledIffPollTookExit(es: seq<Event>)
    requires After(STARTED, es).phase == Stopping && After(STARTED, es).reaped
    ensures (exists fs :: After(After(STARTED, es), fs).phase == Stopped(false))
            <==> !After(STARTED, es).pollTookExit
    ensures After(STARTED, es).pollTookExit ==> forall fs :: After(After(STARTED, es), fs).phase.Stopped? ==>
              After(After(STARTED, es), fs).kills == 1 && After(After(STARTED, es), fs).deadlineOver
  {
    hide After;
    var s := After(STARTED, es);
    StartedInv();
    AfterKeepsInv(STARTED, es);
    forall fs ensures Inv(After(s, fs)) && (s.pollTookExit ==> After(s, fs).pollTookExit) {
      AfterKeepsInv(s, fs);
    }
    OneEvent(s, StopSeesExit);
    if !s.pollTookExit { assert After(s, [StopSeesExit]).phase == Stopped(false); }
  }

  /** Extends a run of one server by an event with a known effect. */
  lemma Then(es: seq<Event>, e: Event, expected: Server) returns (longer: seq<Event>)
    requires Next(After(STARTED, es), e) == expected
    ensures After(STARTED, longer) == expected && longer == es + [e]
  {
    longer := es + [e];
    assert longer[..|es|] == es;
  }

  /** A server exits before it is healthy and is reaped. */
  lemma EarlyExit() returns (es: seq<Event>)
    ensures es == [ProcessExits, ReaperSends]
    ensures After(STARTED, es) == STARTED.(alive := false, reaped := true, buffered := true)
  {
    es := Then([], ProcessExits, STARTED.(alive := false));
    es := Then(es, ReaperSends, STARTED.(alive := false, reaped := true, buffered := true));
  }

  /** If the poll takes the exit message, Stop waits out its deadline and kills. */
  lemma PollTakesExit() returns (es: seq<Event>)
    ensures HealthOk !in es && After(STARTED, es).pollTookExit && After(STARTED, es).phase == Stopped(true)
  {
    hide After;
    es := EarlyExit();
    var s := After(STARTED, es).(phase := Unhealthy, buffered := false, pollTookExit := true);
    es := Then(es, PollSeesExit, s);
    s := s.(phase := Stopping, interrupts := 1);
    es := Then(es, Interrupt, s);
    es := Then(es, DeadlineExpires, s.(deadlineOver := true));
    es := Then(es, StopKills, s.(deadlineOver := true, phase := Stopped(true), kills := 1));
  }

  /** If the poll gives up first, the same early exit costs neither the deadline nor a kill. */
  lemma PollGivesUpFirst() returns (es: seq<Event>)
    ensures HealthOk !in es && After(STARTED, es).phase == Stopped(false)
    ensures After(STARTED, es).kills == 0 && !After(STARTED, es).deadlineOver
  {
    hide After;
    es := EarlyExit();
    var s := After(STARTED, es).(startupOver := true);
    es := Then(es, StartupExpires, s);
    es := Then(es, PollGivesUp, s.(phase := Unhealthy));
    s := s.(phase := Stopping, interrupts := 1);
    es := Then(es, Interrupt, s);
    es := Then(es, StopSeesExit, s.(phase := Stopped(false), buffered := false));
  }
}

/** The Linux session: one server for all five repetitions, stopped by a deferred call. */
module LinuxSession {
  import opened BenchmarkServer

  datatype State =
    | NotStarted
    | Open(server: Server, workload: Workload)
    | Returned(failed: bool, last: Server)
    | ReturnedUnstarted

  datatype Workload = Pending | Succeeded | Failed

  datatype Action =
    | StartFails
    | StartSucceeds
    | Happens(event: Event)
    | WorkloadEnds(ok: bool)
    | Return

  /** Stop is called when startup failed, or deferred until the workload has returned. */
  function Do(t: State, a: Action): State {
    match a
    case StartFails => if t.NotStarted? then ReturnedUnstarted else t
    case StartSucceeds => if t.NotStarted? then Open(STARTED, Pending) else t
    case Happens(e) =>
      if t.Returned? && (e == ProcessExits || e == ReaperSends) then t.(last := Next(t.last, e))
      else if !t.Open? || (e == Interrupt && t.server.phase == Healthy && t.workload == Pending) then t
      else t.(server := Next(t.server, e))
    case WorkloadEnds(ok) =>
      if t.Open? && t.server.phase == Healthy && t.workload == Pending
      then t.(workload := if ok then Succeeded else Failed) else t
    case Return =>
      if t.Open? && t.server.phase.Stopped?
      then Returned(t.workload != Succeeded || t.server.phase.killed, t.server) else t
  }

  function Run(acts: seq<Action>): State {
    if acts == [] then NotStarted else Do(Run(acts[..|acts| - 1]), acts[|acts| - 1])
  }

  ghost predicate SessionInv(t: State) {
    match t
    case Open(s, w) =>
      BenchmarkServer.Inv(s) && (w != Pending ==> s.phase == Healthy || s.phase == Stopping || s.phase.Stopped?)
    case Returned(failed, s) => BenchmarkServer.Inv(s) && s.phase.Stopped? && (s.phase.killed ==> failed)
    case _ => true
  }

  lemma DoKeepsInv(t: State, a: Action)
    requires SessionInv(t)
    ensures SessionInv(Do(t, a))
  {
    hide BenchmarkServer.Inv;
    match a
    case Happens(e) =>
      if t.Open? { NextKeepsInv(t.server, e); HealthyOrLater(t.server, e); }
      if t.Returned? { NextKeepsInv(t.last, e); HealthyOrLater(t.last, e); }
    case StartSucceeds => BenchmarkServer.StartedInv();
    case _ =>
  }

  lemma HealthyOrLater(s: Server, e: Event)
    ensures s.phase == Healthy || s.phase == Stopping || s.phase.Stopped? ==>
      Next(s, e).phase == Healthy || Next(s, e).phase == Stopping || Next(s, e).phase.Stopped?
    ensures s.phase.Stopped? ==> Next(s, e).phase == s.phase
  {
  }

  lemma {:induction false} RunKeepsInv(acts: seq<Action>)
    ensures SessionInv(Run(acts))
  {
    if acts != [] {
      RunKeepsInv(acts[..|acts| - 1]);
      DoKeepsInv(Run(acts[..|acts| - 1]), acts[|acts| - 1]);
    }
  }

  /**
   Under every interleaving, a session that started a server returns only after sending it
   exactly one interrupt and at most one kill, the kill only past the stop deadline; a session
   that reports success leaves no process behind.
   */
  lemma SessionStopsItsServer(acts: seq<Action>)
    requires Run(acts).Returned?
    ensures var s := Run(acts).last;
            && s.interrupts == 1 && s.kills <= 1 && (s.kills == 1 ==> s.deadlineOver)
            && (!Run(acts).failed ==> s.kills == 0 && !s.alive && s.reaped)
            && (!s.alive && !s.reaped ==> Next(s, ReaperSends).reaped)
  {
    hide BenchmarkServer.Inv;
    RunKeepsInv(acts);
    StoppedMeans(Run(acts).last);
    if !Run(acts).last.alive && !Run(acts).last.reaped { ReaperNeverBlocks(Run(acts).last); }
  }

  /** When a session returns, it failed exactly if its workload did not succeed or its Stop had to kill. */
  lemma SessionFailsIff(t: State)
    requires t.Open? && t.server.phase.Stopped?
    ensures Do(t, Return) == Returned(!(t.workload == Succeeded && t.server.phase == Stopped(false)), t.server)
  {
  }

  /** The workload's own result decides, and only while its server is healthy and before it is stopped. */
  lemma WorkloadDecides(t: State, ok: bool)
    requires t.Open? && t.workload == Pending
    ensures Do(t, WorkloadEnds(ok)) ==
            if t.server.phase == Healthy then t.(workload := if ok then Succeeded else Failed) else t
    ensures t.server.phase == Healthy ==> Do(t, Happens(Interrupt)) == t
  {
  }

  /** Extends a run of the Linux session by an action with a known effect. */
  lemma Then(acts: seq<Action>, a: Action, expected: State) returns (longer: seq<Action>)
    requires Do(Run(acts), a) == expected
    ensures Run(longer) == expected
  {
    longer := acts + [a];
    assert longer[..|acts|] == acts;
  }

  /** A server starts, becomes healthy, serves the workload, exits on the interrupt and is reaped. */
  lemma SessionCanSucceed() returns (acts: seq<Action>)
    ensures Run(acts) == Returned(false, Server(Stopped(false), false, true, false, false, false, false, 1, 0))
  {
    hide Run;
    acts := RunNothing();
    var s := STARTED;
    acts := Then(acts, StartSucceeds, Open(s, Pending));
    s := s.(phase := Healthy);
    acts := Then(acts, Happens(HealthOk), Open(s, Pending));
    acts := Then(acts, WorkloadEnds(true), Open(s, Succeeded));
    s := s.(phase := Stopping, interrupts := 1);
    acts := Then(acts, Happens(Interrupt), Open(s, Succeeded));
    s := s.(alive := false);
    acts := Then(acts, Happens(ProcessExits), Open(s, Succeeded));
    s := s.(reaped := true, buffered := true);
    acts := Then(acts, Happens(ReaperSends), Open(s, Succeeded));
    s := s.(phase := Stopped(false), buffered := false);
    acts := Then(acts, Happens(StopSeesExit), Open(s, Succeeded));
    acts := Then(acts, Return, Returned(false, s));
  }

  /** The empty run of the Linux session. */
  lemma RunNothing() returns (acts: seq<Action>)
    ensures acts == [] && Run(acts) == NotStarted
  {
    acts := [];
  }

  /** A start that fails ends the session; one that succeeds opens it with a polling server. */
  lemma StartAnswer()
    ensures Do(NotStarted, StartFails) == ReturnedUnstarted
    ensures Do(NotStarted, StartSucceeds) ==
            Open(Server(Polling, true, false, false, false, false, false, 0, 0), Pending)
  {
  }
}

/** The Darwin orchestration: llama-bench and a fresh TTFT server take turns in each repetition. */
module DarwinSession {
  import opened BenchmarkServer

  const REPETITIONS := 5

  datatype Step =
    | Ready       // before the throughput collector of a repetition
    | Benching    // llama-bench runs
    | BenchDone   // before the TTFT collector
    | Serving     // the last server has been started and its Stop has not returned
    | Finished

  datatype State = State(step: Step, repetition: nat, measured: bool, servers: seq<Server>)

  const INITIAL := State(Ready, 0, false, [])

  datatype Action =
    | BenchStarts
    | BenchEnds
    | StartFails
    | StartSucceeds
    | Measured                       // the TTFT measurement returned
    | Happens(i: nat, event: Event)  // an event of the i-th server started so far
    | ServerStopped                  // the TTFT collector returns
    | Cancelled                      // a context check between collectors fails

  predicate ControlEvent(e: Event) {
    e != ProcessExits && e != ReaperSends
  }

  function Advance(t: State): State {
    if t.repetition + 1 < REPETITIONS then t.(step := Ready, repetition := t.repetition + 1, measured := false)
    else t.(step := Finished, measured := false)
  }

  function Do(t: State, a: Action): State {
    match a
    case BenchStarts => if t.step == Ready then t.(step := Benching) else t
    case BenchEnds => if t.step == Benching then t.(step := BenchDone) else t
    case StartFails => if t.step == BenchDone then Advance(t) else t
    case StartSucceeds =>
      if t.step == BenchDone then t.(step := Serving, measured := false, servers := t.servers + [STARTED]) else t
    case Measured =>
      if t.step == Serving && t.servers != [] && t.servers[|t.servers| - 1].phase == Healthy
      then t.(measured := true) else t
    case Happens(i, e) =>
      if i >= |t.servers| then t
      else if ControlEvent(e) && !(t.step == Serving && i == |t.servers| - 1) then t
      else if e == Interrupt && t.servers[i].phase == Healthy && !t.measured then t
      else t.(servers := t.servers[i := Next(t.servers[i], e)])
    case ServerStopped =>
      if t.step == Serving && t.servers != [] && t.servers[|t.servers| - 1].phase.Stopped? then Advance(t) else t
    case Cancelled => if t.step == Ready || t.step == BenchDone then t.(step := Finished) else t
  }

  function Run(acts: seq<Action>): State {
    if acts == [] then INITIAL else Do(Run(acts[..|acts| - 1]), acts[|acts| - 1])
  }

  /** Stop has returned for this server. */
  predicate Settled(s: Server) {
    s.phase.Stopped?
  }

  ghost predicate OrchestrationInv(t: State) {
    && (forall i :: 0 <= i < |t.servers| ==> BenchmarkServer.Inv(t.servers[i]))
    && (forall i :: 0 <= i < |t.servers| - 1 ==> Settled(t.servers[i]))
    && (t.step == Serving ==> t.servers != [])
    && (t.step != Serving && t.servers != [] ==> Settled(t.servers[|t.servers| - 1]))
    && t.repetition < REPETITIONS
    && |t.servers| <= (if t.step == Serving || t.step == Finished then t.repetition + 1 else t.repetition)
  }

  lemma SettledStays(s: Server, e: Event)
    requires Settled(s)
    ensures Settled(Next(s, e))
  {
  }

  lemma DoKeepsInv(t: State, a: Action)
    requires OrchestrationInv(t)
    ensures OrchestrationInv(Do(t, a))
  {
    hide BenchmarkServer.Inv, Next;
    StartedInv();
    if a.Happens? && a.i < |t.servers| {
      NextKeepsInv(t.servers[a.i], a.event);
      if Settled(t.servers[a.i]) { SettledStays(t.servers[a.i], a.event); }
    }
  }

  lemma {:induction false} RunKeepsInv(acts: seq<Action>)
    ensures OrchestrationInv(Run(acts))
  {
    if acts != [] {
      RunKeepsInv(acts[..|acts| - 1]);
      DoKeepsInv(Run(acts[..|acts| - 1]), acts[|acts| - 1]);
    }
  }

  /**
   Under every interleaving: no server is un-stopped while llama-bench runs, never are two
   un-stopped at once, and at most one server is started per repetition. A process that is
   still alive while llama-bench or a later server runs has been killed past its deadline.
   */
  lemma OneServerAtATime(acts: seq<Action>)
    ensures var t := Run(acts);
            && |t.servers| <= REPETITIONS
            && (t.step == Benching ==> forall i :: 0 <= i < |t.servers| ==>
                  Settled(t.servers[i]) && (t.servers[i].alive ==> t.servers[i].kills == 1))
            && (forall i :: 0 <= i < |t.servers| - 1 ==>
                  Settled(t.servers[i]) && (t.servers[i].alive ==> t.servers[i].kills == 1))
  {
    hide BenchmarkServer.Inv;
    RunKeepsInv(acts);
    var t := Run(acts);
    forall i | 0 <= i < |t.servers| && Settled(t.servers[i])
      ensures t.servers[i].alive ==> t.servers[i].kills == 1
    {
      StoppedMeans(t.servers[i]);
    }
  }

  /** Every started server got exactly one interrupt by the time the orchestration is over. */
  lemma EveryServerInterruptedOnce(acts: seq<Action>)
    requires Run(acts).step == Finished
    ensures var t := Run(acts);
            forall i :: 0 <= i < |t.servers| ==> t.servers[i].interrupts == 1 && t.servers[i].kills <= 1
  {
    hide BenchmarkServer.Inv;
    RunKeepsInv(acts);
    var t := Run(acts);
    forall i | 0 <= i < |t.servers| ensures t.servers[i].interrupts == 1 && t.servers[i].kills <= 1 {
      StoppedMeans(t.servers[i]);
    }
  }

  /** A run of the Darwin session, one action longer. */
  lemma RunAppend(acts: seq<Action>, a: Action)
    ensures Run(acts + [a]) == Do(Run(acts), a)
  {
    assert (acts + [a])[..|acts|] == acts;
  }

  /** Extends a run of the Darwin session by an action with a known effect. */
  lemma Then(acts: seq<Action>, a: Action, expected: State) returns (longer: seq<Action>)
    requires Do(Run(acts), a) == expected
    ensures Run(longer) == expected
  {
    longer := acts + [a];
    RunAppend(acts, a);
  }

  /** The empty run of the Darwin session. */
  lemma RunNothing()
    ensures Run([]) == INITIAL
  {
  }

  // ---------------------------------------------------------------------
  // When two models are held at once
  // ---------------------------------------------------------------------

  /** Two model processes at once: llama-bench and a server, or two servers. */
  predicate TwoModels(t: State) {
    || (t.step == Benching && exists i :: 0 <= i < |t.servers| && t.servers[i].alive)
    || (exists i, j :: 0 <= i < j < |t.servers| && t.servers[i].alive && t.servers[j].alive)
  }

  function TotalKills(servers: seq<Server>): nat {
    if servers == [] then 0 else TotalKills(servers[..|servers| - 1]) + servers[|servers| - 1].kills
  }

  /** The kills sent in a run. */
  function Kills(acts: seq<Action>): nat {
    TotalKills(Run(acts).servers)
  }

  lemma {:induction false} KillsOfOne(servers: seq<Server>, i: nat)
    requires i < |servers|
    ensures servers[i].kills <= TotalKills(servers)
  {
    if i < |servers| - 1 { KillsOfOne(servers[..|servers| - 1], i); }
  }

  /** A server that is alive when it should no longer be has been killed. */
  lemma TwoModelsNeedKill(acts: seq<Action>)
    requires TwoModels(Run(acts))
    ensures Kills(acts) > 0
  {
    OneServerAtATime(acts);
    var t := Run(acts);
    if t.step == Benching && exists i :: 0 <= i < |t.servers| && t.servers[i].alive {
      var i :| 0 <= i < |t.servers| && t.servers[i].alive;
      KillsOfOne(t.servers, i);
    } else {
      var i, j :| 0 <= i < j < |t.servers| && t.servers[i].alive && t.servers[j].alive;
      KillsOfOne(t.servers, i);
    }
  }

  /** Kill does not wait: after a kill in any but the last repetition, the overlap is two steps away. */
  lemma KillMayOverlap(acts: seq<Action>)
    requires var t := Run(acts);
             && t.step == Serving && t.repetition + 1 < REPETITIONS && t.servers != []
             && t.servers[|t.servers| - 1].phase == Stopped(true) && t.servers[|t.servers| - 1].alive
    ensures TwoModels(Run(acts + [ServerStopped] + [BenchStarts]))
    ensures Kills(acts + [ServerStopped] + [BenchStarts]) == Kills(acts)
  {
    hide Run;
    RunAppend(acts, ServerStopped);
    RunAppend(acts + [ServerStopped], BenchStarts);
    var t := Run(acts + [ServerStopped] + [BenchStarts]);
    assert t.servers[|t.servers| - 1].alive;
  }

  /** Kill does not wait: a killed server can still be alive when the next llama-bench runs. */
  lemma KilledServerMayOverlap() returns (acts: seq<Action>)
    ensures var t := Run(acts);
            t.step == Benching && |t.servers| == 1 && t.servers[0].alive && t.servers[0].kills == 1
    ensures TwoModels(Run(acts)) && Kills(acts) == 1
  {
    hide Run;
    RunNothing();
    acts := [];
    acts := Then(acts, BenchStarts, State(Benching, 0, false, []));
    acts := Then(acts, BenchEnds, State(BenchDone, 0, false, []));
    acts := Then(acts, StartSucceeds, State(Serving, 0, false, [STARTED]));
    var s := STARTED.(phase := Healthy);
    acts := Then(acts, Happens(0, HealthOk), State(Serving, 0, false, [s]));
    acts := Then(acts, Measured, State(Serving, 0, true, [s]));
    s := s.(phase := Stopping, interrupts := 1);
    acts := Then(acts, Happens(0, Interrupt), State(Serving, 0, true, [s]));
    s := s.(deadlineOver := true);
    acts := Then(acts, Happens(0, DeadlineExpires), State(Serving, 0, true, [s]));
    s := s.(phase := Stopped(true), kills := 1);
    acts := Then(acts, Happens(0, StopKills), State(Serving, 0, true, [s]));
    acts := Then(acts, ServerStopped, State(Ready, 1, false, [s]));
    acts := Then(acts, BenchStarts, State(Benching, 1, false, [s]));
    assert [s][..0] == [] && TotalKills([s][..0]) == 0;
    assert Run(acts).servers[0].alive;
  }

  /** Two model processes are never held at once exactly as long as no Stop has to kill. */
  lemma OneModelIffNoKill(k: nat)
    ensures (forall acts :: Kills(acts) <= k ==> !TwoModels(Run(acts))) <==> k == 0
  {
    hide Run, TwoModels, Kills;
    if k == 0 {
      forall acts | Kills(acts) <= k ensures !TwoModels(Run(acts)) {
        if TwoModels(Run(acts)) { TwoModelsNeedKill(acts); }
      }
    } else {
      var acts := KilledServerMayOverlap();
    }
  }

  // ---------------------------------------------------------------------
  // All five repetitions
  // ---------------------------------------------------------------------

  /** A server that stopped on its interrupt. */
  const STOPPED := Server(Stopped(false), false, true, false, false, false, false, 1, 0)

  function Stops(n: nat): seq<Server> {
    seq(n, _ => STOPPED)
  }

  /** The last server goes from started to stopped while the others stay. */
  lemma ServerComesAndGoes(acts: seq<Action>, n: nat) returns (longer: seq<Action>)
    requires Run(acts) == State(Serving, n, false, Stops(n) + [STARTED])
    ensures Run(longer) == State(Serving, n, true, Stops(n + 1))
  {
    hide Run;
    var s := STARTED.(phase := Healthy);
    longer := LastBecomes(acts, n, false, STARTED, HealthOk, s);
    longer := Then(longer, Measured, State(Serving, n, true, Stops(n) + [s]));
    var s2 := s.(phase := Stopping, interrupts := 1);
    longer := LastBecomes(longer, n, true, s, Interrupt, s2);
    var s3 := s2.(alive := false);
    longer := LastBecomes(longer, n, true, s2, ProcessExits, s3);
    var s4 := s3.(reaped := true, buffered := true);
    longer := LastBecomes(longer, n, true, s3, ReaperSends, s4);
    longer := LastBecomes(longer, n, true, s4, StopSeesExit, STOPPED);
    assert Stops(n) + [STOPPED] == Stops(n + 1);
  }

  lemma LastBecomes(acts: seq<Action>, n: nat, measured: bool, s: Server, e: Event, s': Server)
    returns (longer: seq<Action>)
    requires Run(acts) == State(Serving, n, measured, Stops(n) + [s])
    requires Next(s, e) == s' && (e == Interrupt ==> measured)
    ensures Run(longer) == State(Serving, n, measured, Stops(n) + [s'])
  {
    hide Run, Next;
    assert (Stops(n) + [s])[n := s'] == Stops(n) + [s'];
    longer := Then(acts, Happens(n, e), State(Serving, n, measured, Stops(n) + [s']));
  }

  /** Every repetition runs llama-bench, then a server of its own; after the fifth the orchestration is over. */
  lemma FiveRepetitions(n: nat) returns (acts: seq<Action>)
    requires n <= 5
    ensures Run(acts) == if n < 5 then State(Ready, n, false, Stops(n)) else State(Finished, 4, false, Stops(5))
  {
    hide Run;
    if n == 0 {
      RunNothing();
      acts := [];
      assert Stops(0) == [];
    } else {
      acts := FiveRepetitions(n - 1);
      acts := Then(acts, BenchStarts, State(Benching, n - 1, false, Stops(n - 1)));
      acts := Then(acts, BenchEnds, State(BenchDone, n - 1, false, Stops(n - 1)));
      acts := Then(acts, StartSucceeds, State(Serving, n - 1, false, Stops(n - 1) + [STARTED]));
      acts := ServerComesAndGoes(acts, n - 1);
      acts := Then(acts, ServerStopped,
                   if n < 5 then State(Ready, n, false, Stops(n)) else State(Finished, 4, false, Stops(5)));
    }
  }

  /** A server that cannot be started costs its repetition only; a cancellation between collectors ends it all. */
  lemma MishapAnswer(t: State)
    ensures t.step == BenchDone && t.repetition < 4 ==>
            Do(t, StartFails) == State(Ready, t.repetition + 1, false, t.servers)
    ensures t.step == BenchDone && t.repetition == 4 ==> Do(t, StartFails) == State(Finished, 4, false, t.servers)
    ensures t.step == Ready || t.step == BenchDone ==> Do(t, Cancelled) == t.(step := Finished)
    ensures t.step == Benching || t.step == Serving ==> Do(t, Cancelled) == t
    ensures t.step == Serving && t.servers != [] && t.servers[|t.servers| - 1].phase == Healthy && !t.measured ==>
              Do(t, Happens(|t.servers| - 1, Interrupt)) == t
    ensures t.step != Serving ==> forall i :: Do(t, Happens(i, Interrupt)) == t && Do(t, Happens(i, StopKills)) == t
  {
  }
}
