/**
 The reconnect loop, the heartbeat loop and Stop of the SSE client
 (integrations/alga-agent-sdk-go/sse.go), as interleaved atomic steps.  A step
 is a lock-protected section, a test of the context, a channel operation or the
 beginning or end of an HTTP call; results of HTTP calls, timers, ticks and the
 choice among ready `select` cases are free.
 */
module SseProtocol {

  import opened Common

  /** How connectAndServe returned.  `Stopped` is the return on a done context;
      an authentication failure is only reported before a connection exists. */
  datatype Outcome = Stopped | Auth | Transient(retryAfter: nat)

  datatype Attempt = Attempt(connected: bool, outcome: Outcome)

  datatype StreamPc = StreamIdle | Check | Ready | Connecting | AuthFailed | Sleeping(delay: nat) | Recheck | StreamDone

  datatype BeatPc = BeatIdle | Waiting | Posting | BeatFailed | BeatCancelling | BeatDone

  datatype Source = FromStream | FromBeat | Earlier

  /** What Start, Stop and the context share.  `stopsPending` counts Stop calls
      between unlocking and calling cancel; `stopped` records that some Stop found
      the cancel function that Start stores. */
  datatype Control = Control(started: bool, closing: bool, done: bool, stopsPending: nat, stopped: bool) {
    predicate Halting() { done || closing }
  }

  /** sseLoop; `log` records its finished connection attempts and `connects`
      counts the ones begun. */
  datatype Stream = Stream(pc: StreamPc, backoff: nat, log: seq<Attempt>, connects: nat)

  /** heartbeatLoop; `tick` says that the ticker's channel holds a tick. */
  datatype Beat = Beat(pc: BeatPc, tick: bool)

  /** The one-slot error channel, with the loops that offered it a terminal
      error, the offers it had no room for and the errors taken out. */
  datatype Channel = Channel(slot: Option<Source>, raised: set<Source>, dropped: nat, drained: nat)

  datatype State = State(ctl: Control, stream: Stream, beat: Beat, chan: Channel)

  datatype Action =
    | Start
    | StopLock
    | StopCancel
    | ParentCancel
    | Tick
    | Drain
    | StreamStep              // a step of sseLoop with only one way to go
    | Returned(attempt: Attempt)
    | SleepDone               // the select in sseLoop takes ctx.Done
    | SleepOver               // the select in sseLoop takes the timer
    | BeatStep
    | BeatSeesDone
    | BeatTakesTick
    | Posted(auth: bool)

  function Initial(slot: Option<Source>): State {
    State(Control(false, false, false, 0, false), Stream(StreamIdle, 2, [], 0), Beat(BeatIdle, false),
        Channel(slot, {}, 0, 0))
  }

  /** A `select` send with a default case. */
  function Offer(c: Channel, e: Source): Channel {
    if c.slot.None? then c.(slot := Some(e), raised := c.raised + {e})
    else c.(raised := c.raised + {e}, dropped := c.dropped + 1)
  }

  function Return(ctl: Control, st: Stream, a: Attempt): Option<Stream> {
    if st.pc != Connecting || (a.outcome.Auth? && a.connected) ||
        (a.outcome.Stopped? && !(a.connected && ctl.done)) then None
    else
      var backoff := if a.connected then 2 else st.backoff;
      var pc := match a.outcome
        case Stopped => Recheck
        case Auth => AuthFailed
        case Transient(ra) => Sleeping(if ra > 0 then ra else backoff);
      Some(Stream(pc, backoff, st.log + [a], st.connects))
  }

  function Step(s: State, a: Action): Option<State> {
    var State(ctl, stream, beat, chan) := s;
    match a
    case Start =>
      if ctl.started then None
      else Some(State(ctl.(started := true), stream.(pc := Check), beat.(pc := Waiting), chan))
    case StopLock =>
      Some(s.(ctl := ctl.(closing := true,
                          stopsPending := ctl.stopsPending + (if ctl.started then 1 else 0),
                          stopped := ctl.stopped || ctl.started)))
    case StopCancel =>
      if ctl.stopsPending == 0 then None else Some(s.(ctl := ctl.(done := true, stopsPending := ctl.stopsPending - 1)))
    case ParentCancel => Some(s.(ctl := ctl.(done := true)))
    case Tick => if ctl.started then Some(s.(beat := beat.(tick := true))) else None
    case Drain =>
      if chan.slot.None? then None else Some(s.(chan := chan.(slot := None, drained := chan.drained + 1)))
    case StreamStep =>
      (match stream.pc
       case Check => Some(s.(stream := stream.(pc := if ctl.Halting() then StreamDone else Ready)))
       case Ready => Some(s.(stream := stream.(pc := Connecting, connects := stream.connects + 1)))
       case AuthFailed => Some(s.(stream := stream.(pc := StreamDone), chan := Offer(chan, FromStream)))
       case Recheck => Some(s.(stream := stream.(pc := if ctl.Halting() then StreamDone else Check)))
       case _ => None)
    case Returned(attempt) =>
      (match Return(ctl, stream, attempt)
       case None => None
       case Some(stream') => Some(s.(stream := stream')))
    case SleepDone =>
      if stream.pc.Sleeping? && ctl.done then Some(s.(stream := stream.(pc := StreamDone))) else None
    case SleepOver =>
      if !stream.pc.Sleeping? then None
      else Some(s.(stream := stream.(pc := Recheck, backoff := Min(stream.backoff * 2, 60))))
    case BeatStep =>
      (match beat.pc
       case BeatFailed => Some(s.(beat := beat.(pc := BeatCancelling), chan := Offer(chan, FromBeat)))
       case BeatCancelling => Some(s.(beat := beat.(pc := BeatDone), ctl := ctl.(done := true)))
       case _ => None)
    case BeatSeesDone => if beat.pc.Waiting? && ctl.done then Some(s.(beat := beat.(pc := BeatDone))) else None
    case BeatTakesTick => if beat.pc.Waiting? && beat.tick then Some(s.(beat := Beat(Posting, false))) else None
    case Posted(auth) =>
      if beat.pc.Posting? then Some(s.(beat := beat.(pc := if auth then BeatFailed else Waiting))) else None
  }

  function Exec(s: State, acts: seq<Action>): Option<State>
    decreases |acts|
  {
    if acts == [] then Some(s)
    else match Step(s, acts[0])
      case None => None
      case Some(t) => Exec(t, acts[1..])
  }

  // ------------------------------------------------------------------ backoff

  /** The delay, in seconds, before the retry that follows failure number `k`. */
  function Base(k: nat): nat { Min(Pow2(k + 1), 60) }

  /** The number of the last failure in the log, counted from zero since the last
      attempt that reached the server. */
  function Streak(log: seq<Attempt>): nat
    requires log != []
  {
    if log[|log|-1].connected || |log| == 1 then 0 else 1 + Streak(log[..|log|-1])
  }

  function NextBase(log: seq<Attempt>): nat {
    if log == [] then 2 else Base(Streak(log) + 1)
  }

  // ---------------------------------------------------------------- invariant

  ghost predicate ControlInv(ctl: Control, stream: Stream, beat: Beat) {
    && (ctl.started <==> !stream.pc.StreamIdle?)
    && (ctl.started <==> !beat.pc.BeatIdle?)
    && (beat.pc.BeatDone? ==> ctl.done)
    && (ctl.stopsPending > 0 ==> ctl.started)
    && (ctl.stopped && ctl.stopsPending == 0 ==> ctl.done)
    && (ctl.stopped ==> ctl.closing && ctl.started)
  }

  ghost predicate LastIs(log: seq<Attempt>, outcome: Outcome) {
    log != [] && log[|log|-1].outcome == outcome
  }

  /** Attempts that were followed by another failed with a transient error; an
      authentication failure ends the loop. */
  ghost predicate StreamInv(stream: Stream, done: bool) {
    && stream.connects == |stream.log| + (if stream.pc.Connecting? then 1 else 0)
    && (forall i :: 0 <= i < |stream.log| - 1 ==> stream.log[i].outcome.Transient?)
    && (stream.pc.AuthFailed? ==> LastIs(stream.log, Auth))
    && (LastIs(stream.log, Auth) ==> stream.pc.AuthFailed? || stream.pc.StreamDone?)
    && (LastIs(stream.log, Stopped) ==> done && (stream.pc.Recheck? || stream.pc.StreamDone?))
  }

  ghost predicate BackoffInv(stream: Stream, done: bool) {
    match stream.pc
    case StreamIdle => stream.log == [] && stream.backoff == 2
    case Check => stream.backoff == NextBase(stream.log)
    case Ready => stream.backoff == NextBase(stream.log)
    case Connecting => stream.backoff == NextBase(stream.log)
    case Recheck => done || stream.backoff == NextBase(stream.log)
    case Sleeping(delay) =>
      && stream.log != []
      && stream.backoff == Base(Streak(stream.log))
      && stream.log[|stream.log|-1].outcome.Transient?
      && delay == (var ra := stream.log[|stream.log|-1].outcome.retryAfter;
                   if ra > 0 then ra else Base(Streak(stream.log)))
    case AuthFailed => true
    case StreamDone => true
  }

  function Raised(chan: Channel): nat { One(FromStream in chan.raised) + One(FromBeat in chan.raised) }

  /** Conservation: every error offered was dropped, taken out, or is buffered. */
  ghost predicate ChannelInv(s: State, initial: Option<Source>) {
    && (FromStream in s.chan.raised ==> s.stream.pc.StreamDone?)
    && (FromBeat in s.chan.raised ==> s.beat.pc.BeatCancelling? || s.beat.pc.BeatDone?)
    && Raised(s.chan) + One(initial.Some?) == s.chan.dropped + s.chan.drained + One(s.chan.slot.Some?)
    && (s.chan.raised != {} ==> s.chan.slot.Some? || s.chan.drained > 0)
  }

  ghost predicate Inv(s: State, initial: Option<Source>) {
    && ControlInv(s.ctl, s.stream, s.beat)
    && StreamInv(s.stream, s.ctl.done)
    && BackoffInv(s.stream, s.ctl.done)
    && ChannelInv(s, initial)
  }

  lemma {:induction false} BaseDoubles(k: nat)
    ensures Min(Base(k) * 2, 60) == Base(k + 1)
    ensures Base(0) == 2
  {
    assert Pow2(k + 2) == 2 * Pow2(k + 1);
    assert Pow2(1) == 2 * Pow2(0) == 2;
  }

  lemma {:induction false} StreakSnoc(log: seq<Attempt>, a: Attempt)
    ensures Streak(log + [a]) == if a.connected || log == [] then 0 else 1 + Streak(log)
  {
    assert (log + [a])[..|log|] == log;
  }

  lemma {:induction false} StepControl(s: State, a: Action)
    requires ControlInv(s.ctl, s.stream, s.beat) && Step(s, a).Some?
    ensures var t := Step(s, a).value; ControlInv(t.ctl, t.stream, t.beat)
  {
  }

  lemma {:induction false} ReturnStream(ctl: Control, st: Stream, a: Attempt)
    requires StreamInv(st, ctl.done) && BackoffInv(st, ctl.done) && Return(ctl, st, a).Some?
    ensures StreamInv(Return(ctl, st, a).value, ctl.done)
    ensures BackoffInv(Return(ctl, st, a).value, ctl.done)
  {
    var log' := st.log + [a];
    StreakSnoc(st.log, a);
    BaseDoubles(0);
    assert log'[|log'|-1] == a;
    assert forall i :: 0 <= i < |st.log| ==> log'[i] == st.log[i];
    assert st.log != [] ==> st.log[|st.log|-1].outcome.Transient?;
  }

  lemma {:induction false} StepStream(s: State, a: Action)
    requires ControlInv(s.ctl, s.stream, s.beat)
    requires StreamInv(s.stream, s.ctl.done) && BackoffInv(s.stream, s.ctl.done) && Step(s, a).Some?
    ensures var t := Step(s, a).value; StreamInv(t.stream, t.ctl.done) && BackoffInv(t.stream, t.ctl.done)
  {
    if a.Returned? {
      ReturnStream(s.ctl, s.stream, a.attempt);
    } else if a.SleepOver? {
      BaseDoubles(Streak(s.stream.log));
    }
  }

  lemma {:induction false} OfferCounts(c: Channel, e: Source)
    requires e == FromStream || e == FromBeat
    requires e !in c.raised
    ensures var c' := Offer(c, e);
            && Raised(c') == Raised(c) + 1 && c'.slot.Some? && c'.drained == c.drained
            && c'.dropped + One(c'.slot.Some?) == c.dropped + One(c.slot.Some?) + 1
            && forall x :: x in c'.raised <==> x in c.raised || x == e
  {
  }

  /** A step that offers an error: the loop reports its authentication failure. */
  predicate Offers(s: State, a: Action) {
    (a.StreamStep? && s.stream.pc.AuthFailed?) || (a.BeatStep? && s.beat.pc.BeatFailed?)
  }

  /** Finished loops stay finished, and other steps raise nothing. */
  lemma {:induction false} StepRaises(s: State, a: Action)
    requires ControlInv(s.ctl, s.stream, s.beat) && Step(s, a).Some?
    ensures var t := Step(s, a).value;
            && (s.stream.pc.StreamDone? ==> t.stream.pc.StreamDone?)
            && (s.beat.pc.BeatCancelling? || s.beat.pc.BeatDone? ==> t.beat.pc.BeatCancelling? || t.beat.pc.BeatDone?)
            && (!Offers(s, a) ==>
                  t.chan == (if a.Drain? then s.chan.(slot := None, drained := s.chan.drained + 1) else s.chan))
            && (a.Drain? ==> s.chan.slot.Some?)
  {
  }

  lemma {:induction false} StepChannel(s: State, a: Action, initial: Option<Source>)
    requires ControlInv(s.ctl, s.stream, s.beat) && ChannelInv(s, initial) && Step(s, a).Some?
    ensures ChannelInv(Step(s, a).value, initial)
  {
    StepRaises(s, a);
    if Offers(s, a) {
      OfferCounts(s.chan, if a.StreamStep? then FromStream else FromBeat);
    }
  }

  lemma {:induction false} InitialInv(slot: Option<Source>)
    ensures Inv(Initial(slot), slot)
  {
  }

  /** Every reachable state satisfies the invariant, in every interleaving. */
  lemma {:induction false} ReachableInv(s: State, acts: seq<Action>, initial: Option<Source>)
    requires Inv(s, initial) && Exec(s, acts).Some?
    ensures Inv(Exec(s, acts).value, initial)
    decreases |acts|
  {
    if acts != [] {
      StepControl(s, acts[0]);
      StepStream(s, acts[0]);
      StepChannel(s, acts[0], initial);
      ReachableInv(Step(s, acts[0]).value, acts[1..], initial);
    }
  }

  // --------------------------------------------------- theorems about all runs

  /** The state after a run of the whole system. */
  ghost predicate Reaches(slot: Option<Source>, acts: seq<Action>, s: State) {
    Exec(Initial(slot), acts) == Some(s)
  }

  lemma {:induction false} ReachedInv(slot: Option<Source>, acts: seq<Action>, s: State)
    requires Reaches(slot, acts, s)
    ensures Inv(s, slot)
  {
    InitialInv(slot);
    ReachableInv(Initial(slot), acts, slot);
  }

  /** Once the stream loop has seen an authentication error, no connection
      attempt begins any more. */
  lemma {:induction false} NoConnectAfterAuth(slot: Option<Source>, before: seq<Action>, s: State, after: seq<Action>)
    requires Reaches(slot, before, s) && (exists a :: a in s.stream.log && a.outcome.Auth?)
    requires Exec(s, after).Some?
    ensures Exec(s, after).value.stream.connects == s.stream.connects
  {
    ReachedInv(slot, before, s);
    assert LastIs(s.stream.log, Auth);
    NoConnectAfterExit(s, after);
  }

  lemma {:induction false} NoConnectAfterExit(s: State, acts: seq<Action>)
    requires s.ctl.started && (s.stream.pc.AuthFailed? || s.stream.pc.StreamDone?)
    requires Exec(s, acts).Some?
    ensures Exec(s, acts).value.stream.connects == s.stream.connects
    decreases |acts|
  {
    if acts != [] {
      NoConnectAfterExit(Step(s, acts[0]).value, acts[1..]);
    }
  }

  /** After the context is cancelled at most one more connection attempt begins,
      and only if the loop had already passed its test. */
  lemma {:induction false} ConnectsAfterCancel(slot: Option<Source>, before: seq<Action>, s: State, after: seq<Action>)
    requires Reaches(slot, before, s) && s.ctl.done && s.ctl.started
    requires Exec(s, after).Some?
    ensures Exec(s, after).value.stream.connects <= s.stream.connects + One(s.stream.pc.Ready?)
  {
    ReachedInv(slot, before, s);
    ConnectsWhenDone(s, after);
  }

  lemma {:induction false} ConnectsWhenDone(s: State, acts: seq<Action>)
    requires s.ctl.started && s.ctl.done && Exec(s, acts).Some?
    ensures Exec(s, acts).value.stream.connects <= s.stream.connects + One(s.stream.pc.Ready?)
    decreases |acts|
  {
    if acts != [] {
      ConnectsWhenDone(Step(s, acts[0]).value, acts[1..]);
    }
  }

  predicate IsLoopStep(a: Action) {
    a.StreamStep? || a.Returned? || a.SleepDone? || a.SleepOver? ||
    a.BeatStep? || a.BeatSeesDone? || a.BeatTakesTick? || a.Posted?
  }

  function LoopSteps(acts: seq<Action>): nat {
    if acts == [] then 0 else One(IsLoopStep(acts[0])) + LoopSteps(acts[1..])
  }

  function Ticks(acts: seq<Action>): nat {
    if acts == [] then 0 else One(acts[0].Tick?) + Ticks(acts[1..])
  }

  /** An upper bound on the steps the two loops can still take. */
  function StreamRank(pc: StreamPc): nat {
    match pc
    case Ready => 5
    case Connecting => 4
    case Sleeping(_) => 3
    case Recheck => 2
    case AuthFailed => 1
    case Check => 1
    case StreamIdle => 0
    case StreamDone => 0
  }

  function BeatRank(b: Beat): nat {
    (match b.pc
     case Waiting => 1
     case Posting => 5
     case BeatFailed => 3
     case BeatCancelling => 2
     case BeatIdle => 0
     case BeatDone => 0) + 5 * One(b.tick)
  }

  function Rank(s: State): nat { StreamRank(s.stream.pc) + BeatRank(s.beat) }

  lemma {:induction false} StepRank(s: State, a: Action)
    requires s.ctl.started && s.ctl.done && Step(s, a).Some?
    ensures Step(s, a).value.ctl.started && Step(s, a).value.ctl.done
    ensures Rank(Step(s, a).value) + One(IsLoopStep(a)) <= Rank(s) + 5 * One(a.Tick?)
  {
  }

  lemma {:induction false} WindDown(s: State, acts: seq<Action>)
    requires s.ctl.started && s.ctl.done && Exec(s, acts).Some?
    ensures LoopSteps(acts) + Rank(Exec(s, acts).value) <= Rank(s) + 5 * Ticks(acts)
    decreases |acts|
  {
    if acts != [] {
      StepRank(s, acts[0]);
      WindDown(Step(s, acts[0]).value, acts[1..]);
    }
  }

  /** After the cancel, the two loops together take at most fifteen more steps,
      plus five for every further heartbeat tick, in any interleaving. */
  lemma {:induction false} LoopsWindDown(slot: Option<Source>, before: seq<Action>, s: State, after: seq<Action>)
    requires Reaches(slot, before, s) && s.ctl.started && s.ctl.done
    requires Exec(s, after).Some?
    ensures LoopSteps(after) <= 15 + 5 * Ticks(after)
  {
    WindDown(s, after);
    assert Rank(s) <= 15;
  }

  /** A loop that has not ended can always take a step of its own: it never
      waits for the error channel, and the heartbeat waits only while there is
      neither a tick nor a cancel. */
  lemma {:induction false} NeverBlocked(slot: Option<Source>, acts: seq<Action>, s: State)
    requires Reaches(slot, acts, s) && s.ctl.started
    ensures !s.stream.pc.StreamDone? ==>
              || Step(s, StreamStep).Some? || Step(s, Returned(Attempt(false, Transient(0)))).Some?
              || Step(s, SleepOver).Some?
    ensures !s.beat.pc.BeatDone? && (s.ctl.done || s.beat.tick || !s.beat.pc.Waiting?) ==>
              || Step(s, BeatStep).Some? || Step(s, BeatSeesDone).Some? || Step(s, BeatTakesTick).Some?
              || Step(s, Posted(false)).Some?
  {
    ReachedInv(slot, acts, s);
  }

  /** Terminal errors: a send loses its error only while another is buffered, and
      once a loop has reported one the reader has, or has had, one to read. */
  lemma {:induction false} ErrorsAreDelivered(slot: Option<Source>, acts: seq<Action>, s: State, a: Action)
    requires Reaches(slot, acts, s) && Step(s, a).Some?
    ensures Step(s, a).value.chan.dropped > s.chan.dropped ==>
              s.chan.slot.Some? && Step(s, a).value.chan.slot == s.chan.slot
    ensures s.chan.raised != {} ==> s.chan.slot.Some? || s.chan.drained > 0
    ensures Raised(s.chan) + One(slot.Some?) == s.chan.dropped + s.chan.drained + One(s.chan.slot.Some?)
  {
    ReachedInv(slot, acts, s);
  }

  /** The delay before a retry: the server's Retry-After, or min(2^(k+1), 60)
      seconds after failure number k since the last connection. */
  lemma {:induction false} RetryDelay(slot: Option<Source>, acts: seq<Action>, s: State)
    requires Reaches(slot, acts, s) && s.stream.pc.Sleeping?
    ensures s.stream.log != [] && s.stream.log[|s.stream.log|-1].outcome.Transient?
    ensures s.stream.pc.delay == var ra := s.stream.log[|s.stream.log|-1].outcome.retryAfter;
                                 if ra > 0 then ra else Min(Pow2(Streak(s.stream.log) + 1), 60)
  {
    ReachedInv(slot, acts, s);
  }

  /** What the surroundings can always do: a Stop call that found the cancel
      function cancels, the caller's context may end, a started ticker ticks, and
      the reader takes a buffered error. */
  lemma {:induction false} SurroundingsAct(s: State)
    ensures Step(s, StopLock).Some? && Step(s, StopLock).value.ctl.closing
    ensures s.ctl.stopsPending > 0 <==> Step(s, StopCancel).Some?
    ensures s.ctl.stopsPending > 0 ==>
              var t := Step(s, StopCancel).value; t.ctl.done && t.ctl.stopsPending == s.ctl.stopsPending - 1
    ensures Step(s, ParentCancel).Some? && Step(s, ParentCancel).value.ctl.done
    ensures s.ctl.started <==> Step(s, Tick).Some?
    ensures s.ctl.started ==> Step(s, Tick).value.beat.tick
    ensures s.chan.slot.Some? <==> Step(s, Drain).Some?
    ensures s.chan.slot.Some? ==> Step(s, Drain).value.chan.slot.None?
  {
  }

  /** A Stop on a started client cancels it, whatever else is going on. */
  lemma {:induction false} StopCancels(s: State)
    requires s.ctl.started
    ensures Exec(s, [StopLock] + [StopCancel]).Some?
    ensures var t := Exec(s, [StopLock] + [StopCancel]).value;
            t.ctl.done && t.ctl.closing && t.ctl.stopsPending == s.ctl.stopsPending
  {
    ExecCons(s, StopLock, [StopCancel]);
    Exec1(Step(s, StopLock).value, StopCancel);
  }

  /** On a cancelled context neither loop has to wait: the pause between attempts
      ends, and so does the wait for a tick. */
  lemma {:induction false} CancelEndsWaits(s: State)
    requires s.ctl.done
    ensures s.stream.pc.Sleeping? ==> Step(s, SleepDone).Some? && Step(s, SleepDone).value.stream.pc.StreamDone?
    ensures s.beat.pc.Waiting? ==> Step(s, BeatSeesDone).Some? && Step(s, BeatSeesDone).value.beat.pc.BeatDone?
    ensures s.stream.pc.Check? || s.stream.pc.Recheck? ==>
              Step(s, StreamStep).Some? && Step(s, StreamStep).value.stream.pc.StreamDone?
  {
  }

  /** A client that nothing has ended goes on: it connects, and after a failure
      connects again once the pause is over. */
  lemma {:induction false} ClientGoesOn(s: State)
    requires !s.ctl.done && !s.ctl.closing
    ensures s.stream.pc.Check? ==>
              && Exec(s, [StreamStep] + [StreamStep]).Some?
              && Exec(s, [StreamStep] + [StreamStep]).value.stream.pc.Connecting?
    ensures s.stream.pc.Sleeping? ==>
              && Exec(s, [SleepOver] + [StreamStep]).Some?
              && Exec(s, [SleepOver] + [StreamStep]).value.stream.pc.Check?
    ensures s.beat.pc.Posting? ==> Step(s, Posted(false)).Some? && Step(s, Posted(false)).value.beat.pc.Waiting?
    ensures s.beat.pc.Waiting? && s.beat.tick ==>
              Step(s, BeatTakesTick).Some? && Step(s, BeatTakesTick).value.beat == Beat(Posting, false)
  {
    if s.stream.pc.Check? {
      ExecCons(s, StreamStep, [StreamStep]);
      Exec1(Step(s, StreamStep).value, StreamStep);
    } else if s.stream.pc.Sleeping? {
      ExecCons(s, SleepOver, [StreamStep]);
      Exec1(Step(s, SleepOver).value, StreamStep);
    }
  }

  // ----------------------------------------------- authentication failures

  /** What the stream's authentication failures have led to: the loop is about to
      offer the error, or has ended with it offered; and no other cause ends it
      but a cancel or Stop. */
  ghost predicate StreamReports(s: State) {
    && (LastIs(s.stream.log, Auth) ==> s.stream.pc.AuthFailed? || FromStream in s.chan.raised)
    && (FromStream in s.chan.raised ==> LastIs(s.stream.log, Auth) && s.stream.pc.StreamDone?)
    && (s.stream.pc.AuthFailed? ==> LastIs(s.stream.log, Auth))
    && (s.stream.pc.StreamDone? ==> LastIs(s.stream.log, Auth) || s.ctl.Halting())
  }

  lemma {:induction false} StepReports(s: State, a: Action)
    requires ControlInv(s.ctl, s.stream, s.beat) && StreamReports(s) && Step(s, a).Some?
    ensures StreamReports(Step(s, a).value)
  {
    if a.Returned? {
      var log' := s.stream.log + [a.attempt];
      assert log'[|log'|-1] == a.attempt;
    }
  }

  lemma {:induction false} ExecReports(s: State, acts: seq<Action>)
    requires ControlInv(s.ctl, s.stream, s.beat) && StreamReports(s) && Exec(s, acts).Some?
    ensures StreamReports(Exec(s, acts).value)
    decreases |acts|
  {
    if acts != [] {
      StepControl(s, acts[0]);
      StepReports(s, acts[0]);
      ExecReports(Step(s, acts[0]).value, acts[1..]);
    }
  }

  /** In every run the stream loop, once ended, has offered its error if and only
      if it met an authentication failure, and has ended for no other reason than
      that, a cancel or a Stop. */
  lemma {:induction false} StreamAuthReported(slot: Option<Source>, acts: seq<Action>, s: State)
    requires Reaches(slot, acts, s) && s.stream.pc.StreamDone?
    ensures FromStream in s.chan.raised <==> exists a :: a in s.stream.log && a.outcome.Auth?
    ensures FromStream in s.chan.raised || s.ctl.done || s.ctl.closing
  {
    InitialInv(slot);
    ReachedInv(slot, acts, s);
    ExecReports(Initial(slot), acts);
    if a :| a in s.stream.log && a.outcome.Auth? {
      var i :| 0 <= i < |s.stream.log| && s.stream.log[i] == a;
      assert LastIs(s.stream.log, Auth);
    }
  }

  /** The heartbeat is on its way out with its error: about to offer it, about to
      cancel with the error offered, or ended with both done. */
  ghost predicate BeatEnding(s: State) {
    || s.beat.pc.BeatFailed?
    || (s.beat.pc.BeatCancelling? && FromBeat in s.chan.raised)
    || (s.beat.pc.BeatDone? && FromBeat in s.chan.raised && s.ctl.done)
  }

  lemma {:induction false} BeatEnds(s: State, acts: seq<Action>)
    requires s.ctl.started && BeatEnding(s) && Exec(s, acts).Some?
    ensures BeatEnding(Exec(s, acts).value)
    ensures BeatTakesTick !in acts
    decreases |acts|
  {
    if acts != [] {
      BeatEnds(Step(s, acts[0]).value, acts[1..]);
      assert acts == [acts[0]] + acts[1..];
    }
  }

  /** Once a heartbeat is refused, in any interleaving, no further heartbeat is
      sent; the error is offered before the loop ends; and when it has ended the
      shared context is cancelled. */
  lemma {:induction false} HeartbeatAuthEndsClient(slot: Option<Source>, before: seq<Action>, s: State,
      after: seq<Action>)
    requires Reaches(slot, before, s) && Step(s, Posted(true)).Some?
    requires Exec(Step(s, Posted(true)).value, after).Some?
    ensures var t := Exec(Step(s, Posted(true)).value, after).value;
            && BeatTakesTick !in after
            && (t.beat.pc.BeatFailed? || FromBeat in t.chan.raised)
            && (t.beat.pc.BeatDone? ==> FromBeat in t.chan.raised && t.ctl.done)
            && (t.beat.pc.BeatFailed? || t.beat.pc.BeatCancelling? || t.beat.pc.BeatDone?)
  {
    ReachedInv(slot, before, s);
    BeatEnds(Step(s, Posted(true)).value, after);
  }

  lemma {:induction false} BeatHistory(s: State, acts: seq<Action>)
    requires s.ctl.started <==> !s.beat.pc.BeatIdle?
    requires Exec(s, acts).Some?
    ensures var t := Exec(s, acts).value;
            && (t.beat.pc.BeatFailed? ==> s.beat.pc.BeatFailed? || Posted(true) in acts)
            && (FromBeat in t.chan.raised ==>
                FromBeat in s.chan.raised || s.beat.pc.BeatFailed? || Posted(true) in acts)
            && (Posted(true) in acts ==> BeatEnding(t))
    decreases |acts|
  {
    if acts != [] {
      var next := Step(s, acts[0]).value;
      BeatHistory(next, acts[1..]);
      assert acts == [acts[0]] + acts[1..];
      if acts[0] == Posted(true) {
        BeatEnds(next, acts[1..]);
      }
    }
  }

  /** Over every run: the heartbeat has failed or offered its error if and only
      if some heartbeat was refused. */
  lemma {:induction false} HeartbeatAuthReported(slot: Option<Source>, acts: seq<Action>, s: State)
    requires Reaches(slot, acts, s)
    ensures s.beat.pc.BeatFailed? || FromBeat in s.chan.raised <==> Posted(true) in acts
  {
    BeatHistory(Initial(slot), acts);
  }

  // ------------------------------------------------------------- Start and Stop

  ghost predicate StopAfterStart(acts: seq<Action>) {
    exists i, j :: 0 <= i < j < |acts| && acts[i].Start? && acts[j].StopLock?
  }

  lemma {:induction false} StopAfterStartCons(a: Action, acts: seq<Action>)
    ensures StopAfterStart([a] + acts) <==> StopAfterStart(acts) || (a.Start? && StopLock in acts)
  {
    var all := [a] + acts;
    if StopAfterStart(all) {
      var i, j :| 0 <= i < j < |all| && all[i].Start? && all[j].StopLock?;
      assert acts[j-1] == StopLock;
      if i > 0 {
        assert acts[i-1].Start? && acts[j-1].StopLock?;
      }
    }
    if StopAfterStart(acts) {
      var i, j :| 0 <= i < j < |acts| && acts[i].Start? && acts[j].StopLock?;
      assert all[i+1].Start? && all[j+1].StopLock?;
    }
    if a.Start? && StopLock in acts {
      var j :| 0 <= j < |acts| && acts[j] == StopLock;
      assert all[0].Start? && all[j+1].StopLock?;
    }
  }

  lemma {:induction false} StoppedHistory(s: State, acts: seq<Action>)
    requires Exec(s, acts).Some?
    ensures Exec(s, acts).value.ctl.stopped <==>
              s.ctl.stopped || (s.ctl.started && StopLock in acts) || StopAfterStart(acts)
    decreases |acts|
  {
    if acts != [] {
      StoppedHistory(Step(s, acts[0]).value, acts[1..]);
      StopAfterStartCons(acts[0], acts[1..]);
      assert acts == [acts[0]] + acts[1..];
    }
  }

  /** Nothing but Stop cancels the context in this run. */
  ghost predicate OnlyStopCancels(acts: seq<Action>) {
    forall a :: a in acts ==> !a.ParentCancel? && a != Posted(true)
  }

  lemma {:induction false} OnlyStop(s: State, acts: seq<Action>)
    requires OnlyStopCancels(acts) && Exec(s, acts).Some?
    requires !s.beat.pc.BeatFailed? && !s.beat.pc.BeatCancelling?
    requires s.ctl.done || s.ctl.stopsPending > 0 ==> s.ctl.stopped
    ensures Exec(s, acts).value.ctl.done ==> Exec(s, acts).value.ctl.stopped
    decreases |acts|
  {
    if acts != [] {
      assert acts[0] in acts;
      OnlyStop(Step(s, acts[0]).value, acts[1..]);
    }
  }

  /** Exactly when Stop ends the loops: with no other reason to cancel, and every
      Stop call returned, the context is cancelled if and only if some Stop came
      after Start.  The heartbeat loop ends only on a cancelled context. */
  lemma {:induction false} StopNeedsStart(slot: Option<Source>, acts: seq<Action>, s: State)
    requires Reaches(slot, acts, s) && OnlyStopCancels(acts) && s.ctl.stopsPending == 0
    ensures s.ctl.done <==> StopAfterStart(acts)
    ensures s.beat.pc.BeatDone? ==> StopAfterStart(acts)
  {
    ReachedInv(slot, acts, s);
    StoppedHistory(Initial(slot), acts);
    OnlyStop(Initial(slot), acts);
  }

  lemma {:induction false} Exec1(s: State, a: Action)
    ensures Exec(s, [a]) == Step(s, a)
  {
    assert [a][1..] == [];
  }

  lemma {:induction false} ExecCons(s: State, a: Action, acts: seq<Action>)
    requires Step(s, a).Some?
    ensures Exec(s, [a] + acts) == Exec(Step(s, a).value, acts)
  {
    assert ([a] + acts)[1..] == acts;
  }

  /** A Stop that overtakes Start: the stream loop ends, the heartbeat goes on
      with a live context and nothing left to cancel it. */
  lemma {:induction false} StopOvertakesStart(slot: Option<Source>)
    ensures Exec(Initial(slot), [StopLock] + ([Start] + [StreamStep])).Some?
    ensures var s := Exec(Initial(slot), [StopLock] + ([Start] + [StreamStep])).value;
            s.stream.pc.StreamDone? && s.beat.pc.Waiting? && !s.ctl.done && s.ctl.stopsPending == 0
  {
    var s1 := Step(Initial(slot), StopLock).value;
    var s2 := Step(s1, Start).value;
    ExecCons(Initial(slot), StopLock, [Start] + [StreamStep]);
    ExecCons(s1, Start, [StreamStep]);
    Exec1(s2, StreamStep);
  }

  /** An authentication failure of the stream reports itself but leaves the
      heartbeat running. */
  lemma {:induction false} StreamAuthLeavesHeartbeat()
    ensures exists acts, s ::
              && Reaches(None, acts, s) && s.stream.pc.StreamDone? && s.chan.slot == Some(FromStream)
              && s.beat.pc.Waiting? && !s.ctl.done
  {
    var fail := Returned(Attempt(false, Auth));
    var s0 := Initial(None);
    var s1 := Step(s0, Start).value;
    var s2 := Step(s1, StreamStep).value;
    var s3 := Step(s2, StreamStep).value;
    var s4 := Step(s3, fail).value;
    var s5 := Step(s4, StreamStep).value;
    Exec1(s4, StreamStep);
    ExecCons(s3, fail, [StreamStep]);
    ExecCons(s2, StreamStep, [fail] + [StreamStep]);
    ExecCons(s1, StreamStep, [StreamStep] + ([fail] + [StreamStep]));
    ExecCons(s0, Start, [StreamStep] + ([StreamStep] + ([fail] + [StreamStep])));
    assert Reaches(None, [Start] + ([StreamStep] + ([StreamStep] + ([fail] + [StreamStep]))), s5);
  }
}
