/**
 * The poll loop against the blocking program: over the same rounds the same commands, and events that tell
 * exactly what the wrappers return, for any operations among which no AVR configuration is reached while armed.
 */
module Refinement {
  import opened Prelude
  import opened Wire
  import opened Protocol
  import opened Script
  import opened ClientSpec
  import opened ClientRuns
  import B = Blocking
  import D = DspSeq
  import A = AvrSeq
  import P = PiSeq
  import C = ConfigSeq
  import R = ArmSeq
  import S = ShotSeq

  // ---- programs ------------------------------------------------------------------------

  /** The wrappers a blocking program calls for one operation. */
  function StagesOf(ops: seq<Op>): seq<B.Stage> {
    if ops == [] then []
    else StagesOfOp(ops[0]) + StagesOf(ops[1..])
  }

  function StagesOfOp(op: Op): seq<B.Stage> {
    match op
    case Handshake => [B.SyncDsp, B.SyncAvr, B.SyncPi]
    case ConfigureAvr(s) => [B.ConfigureAvr(s)]
    case ConfigureCam(cam) => [B.ConfigureCamera(cam)]
    case Arm => [B.ArmDevice]
    case Keepalive => []
  }

  /** Keepalives the client has queued come behind everything else. */
  predicate KeepalivesLast(ops: seq<Op>) {
    forall i, j | 0 <= i < j < |ops| :: ops[i].Keepalive? ==> ops[j].Keepalive?
  }

  lemma {:induction false} KeepaliveStages(ops: seq<Op>)
    requires forall i | 0 <= i < |ops| :: ops[i].Keepalive?
    ensures StagesOf(ops) == []
  {
    if ops != [] { KeepaliveStages(ops[1..]); }
  }

  lemma {:induction false} OneKeepaliveMore(ops: seq<Op>)
    ensures StagesOf(ops + [Keepalive]) == StagesOf(ops)
    ensures KeepalivesLast(ops) ==> KeepalivesLast(ops + [Keepalive])
  {
    if ops == [] {
      assert [] + [Keepalive] == [Keepalive];
      KeepaliveStages([Keepalive]);
    } else {
      assert (ops + [Keepalive])[1..] == ops[1..] + [Keepalive];
      OneKeepaliveMore(ops[1..]);
    }
  }

  /** While a wrapper is still to be called, the head of the queue is the operation it belongs to. */
  lemma QueueHead(ops: seq<Op>)
    requires KeepalivesLast(ops) && StagesOf(ops) != []
    ensures ops != [] && !ops[0].Keepalive? && KeepalivesLast(ops[1..])
    ensures StagesOf(ops) == StagesOfOp(ops[0]) + StagesOf(ops[1..])
  {
    if ops[0].Keepalive? { KeepaliveStages(ops); }
    var rest := ops[1..];
    forall i, j | 0 <= i < j < |rest| && rest[i].Keepalive? ensures rest[j].Keepalive? {
      assert rest[i] == ops[i + 1] && rest[j] == ops[j + 1];
    }
  }

  // ---- the simulation ------------------------------------------------------------------

  predicate Calm(c: Client) {
    !c.shot && c.opTimeout == B.PATIENCE
  }

  function MachineOf(a: Active): Option<B.Machine> {
    match a
    case HsDsp(p) => Some(B.Scripted(p))
    case HsAvr(p, _) => Some(B.Scripted(p))
    case HsPi(p, _, _) => Some(B.Scripted(p))
    case ConfiguringAvr(p, _) => Some(B.Scripted(p))
    case ConfiguringCam(p, _) => Some(B.Scripted(p))
    case Arming(r) => Some(B.Retrying(r))
    case _ => None
  }

  /** The wrapper that drives the active sequencer. */
  function StageOf(a: Active): B.Stage
    requires MachineOf(a).Some?
  {
    match a
    case HsDsp(_) => B.SyncDsp
    case HsAvr(_, _) => B.SyncAvr
    case HsPi(_, _, _) => B.SyncPi
    case ConfiguringAvr(_, s) => B.ConfigureAvr(s)
    case ConfiguringCam(_, cam) => B.ConfigureCamera(cam)
    case Arming(_) => B.ArmDevice
  }

  /** The wrappers still to be called inside the operation in progress. */
  function Within(a: Active): seq<B.Stage> {
    if a.HsDsp? then [B.SyncAvr, B.SyncPi] else if a.HsAvr? then [B.SyncPi] else []
  }

  /** Both sides are in the same sequencer at the same point, with the same work left. */
  predicate Mid(c: Client, stage: B.Stage, m: B.Machine, deadline: nat, after: seq<B.Stage>) {
    && WF(c) && Calm(c) && KeepalivesLast(c.queue)
    && c.active.Some? && MachineOf(c.active.value) == Some(m) && StageOf(c.active.value) == stage
    && B.Serves(stage, m) && c.deadline.value >= deadline
    && after == Within(c.active.value) + StagesOf(c.queue)
  }

  /** Between operations: the client starts the next one when it is next polled. */
  predicate Idle(c: Client, stages: seq<B.Stage>) {
    WF(c) && c.active.None? && Calm(c) && KeepalivesLast(c.queue) && stages == StagesOf(c.queue)
  }

  /** The handshake results a blocking program holds on to. */
  datatype Kept = Kept(dsp: Option<D.DspSync>, avr: Option<A.AvrSync>)

  const NOTHING_KEPT: Kept := Kept(None, None)

  /** What it holds on to after a wrapper has returned. */
  function KeptAfter(k: Kept, result: B.Returned): Kept {
    match result
    case SyncedDsp(dsp) => k.(dsp := Some(dsp))
    case SyncedAvr(avr) => k.(avr := Some(avr))
    case _ => NOTHING_KEPT
  }

  /** What a wrapper's return is to a caller of `poll`. */
  function EventsFor(k: Kept, result: B.Returned): seq<Event> {
    match result
    case SyncedDsp(_) => []
    case SyncedAvr(_) => []
    case SyncedPi(pi) =>
      if k.dsp.Some? && k.avr.Some? then [HandshakeDone(HandshakeOutcome(k.dsp.value, k.avr.value, pi))] else []
    case AvrConfigured => [Configured]
    case CameraConfigured => [Configured]
    case DeviceArmed => [Armed]
  }

  /** The events that tell a caller what the wrappers have returned. */
  function Reports(k: Kept, results: seq<B.Returned>): seq<Event>
    decreases |results|
  {
    if results == [] then [] else EventsFor(k, results[0]) + Reports(KeptAfter(k, results[0]), results[1..])
  }

  /** Armed by the arm wrapper, or found armed: state 6 in the DSP status of a handshake. */
  predicate ArmedAfter(armed: bool, k: Kept, result: B.Returned) {
    armed || result.DeviceArmed? || (result.SyncedPi? && k.dsp.Some? && k.dsp.value.status.state == 6)
  }

  /** No AVR configuration is entered while what the wrappers have returned says the device is armed. */
  predicate NeverConfiguresArmed(armed: bool, k: Kept, stages: seq<B.Stage>, results: seq<B.Returned>)
    decreases |stages|
  {
    || stages == []
    || ((stages[0].ConfigureAvr? ==> !armed)
        && (results == []
            || NeverConfiguresArmed(ArmedAfter(armed, k, results[0]), KeptAfter(k, results[0]), stages[1..], results[1..])))
  }

  lemma NextStage(armed: bool, k: Kept, stage: B.Stage, after: seq<B.Stage>, result: B.Returned, rest: seq<B.Returned>)
    requires NeverConfiguresArmed(armed, k, [stage] + after, [result] + rest)
    ensures NeverConfiguresArmed(ArmedAfter(armed, k, result), KeptAfter(k, result), after, rest)
  {
    assert ([stage] + after)[1..] == after && ([result] + rest)[1..] == rest;
  }

  /** The earlier results the active operation carries. */
  function KeptBy(a: Active): Kept {
    match a
    case HsAvr(_, dsp) => Kept(Some(dsp), None)
    case HsPi(_, dsp, avr) => Kept(Some(dsp), Some(avr))
    case _ => NOTHING_KEPT
  }

  lemma ReportsNext(k: Kept, result: B.Returned, rest: seq<B.Returned>)
    ensures Reports(k, [result] + rest) == EventsFor(k, result) + Reports(KeptAfter(k, result), rest)
  {
    assert ([result] + rest)[1..] == rest;
  }

  function KeptIn(c: Client): Kept { if c.active.Some? then KeptBy(c.active.value) else NOTHING_KEPT }

  /** The client takes a wrapper's return in: the same results kept, the events for it, the same belief of armed. */
  predicate TakesIn(c: Client, result: B.Returned, o: Out) {
    && KeptIn(o.c) == KeptAfter(KeptIn(c), result)
    && EventsOf(o.result) == EventsFor(KeptIn(c), result) && o.result != TimedOut
    && o.c.armed == ArmedAfter(c.armed, KeptIn(c), result)
  }

  /** An idle client has yet to send what a blocking program sends on entering the next wrapper. */
  function Unsent(c: Client): seq<Action> {
    if c.active.Some? || StagesOf(c.queue) == [] then [] else B.FirstSend(StagesOf(c.queue)[0])
  }

  /** What the two runs over the same rounds have to do with each other. */
  predicate Agree(c: Client, ticks: seq<Tick>, r: B.Ran)
    requires WF(c) && |r.left| <= |ticks|
  {
    var p := PollAll(c, ticks[..|ticks| - |r.left|]);
    && !p.timedOut
    && r.sent == p.sent + Unsent(p.c) && (r.end.Finished? ==> Unsent(p.c) == [])
    && p.events == Reports(KeptIn(c), r.results)
  }

  // ---- one round in the middle of an operation -------------------------------------------

  lemma FeedMatches(a: Active, m: B.Machine, env: Envelope, now: nat)
    requires MachineOf(a) == Some(m)
    ensures var f := FeedOp(a, env, now);
            && MachineOf(f.a) == Some(B.MFeed(m, env, now).next)
            && f.sends == B.MFeed(m, env, now).sends
            && (Finished(f.a) <==> B.MComplete(B.MFeed(m, env, now).next))
            && (f.signal.Consumed? <==> !Finished(f.a)) && !f.signal.Intermediate?
  {
    hide Feed, R.ArmFeed;
  }

  lemma BeforeRecvMid(c: Client, stage: B.Stage, m: B.Machine, deadline: nat, after: seq<B.Stage>, now: nat)
    requires Mid(c, stage, m, deadline, after) && now < deadline
    ensures !Overdue(c, now)
    ensures var (b, e) := (BeforeRecv(c, now), B.BeforeRound(stage.SyncAvr?, m, now));
            && b.sent == e.sends && b.result == Quiet && Mid(b.c, stage, e.next, deadline, after)
            && KeptIn(b.c) == KeptIn(c) && b.c.armed == c.armed
  {
    hide StagesOf, Advance, KeepalivesLast, KeepaliveDue, B.Serves, Sound, Finished;
    LiveActive(c);
    BeforeRecvKeepsWF(c, now);
    ExpireServes(stage, m, now);
    OneKeepaliveMore(c.queue);
    Associative(B.BeforeRound(stage.SyncAvr?, m, now).sends, [], []);
  }

  lemma ExpireServes(stage: B.Stage, m: B.Machine, now: nat)
    ensures B.Serves(stage, m) ==> B.Serves(stage, B.BeforeRound(stage.SyncAvr?, m, now).next)
  {}

  /** The stage in progress is not complete yet. */
  lemma DeliverMid(c: Client, stage: B.Stage, m: B.Machine, deadline: nat, after: seq<B.Stage>, env: Envelope, now: nat)
    requires Mid(c, stage, m, deadline, after) && !B.MComplete(B.MFeed(m, env, now).next)
    ensures var (o, f) := (Deliver(c, env, now), B.MFeed(m, env, now));
            && o.sent == f.sends && o.result == Quiet && Mid(o.c, stage, f.next, deadline, after)
            && KeptIn(o.c) == KeptIn(c) && o.c.armed == c.armed
  {
    hide FeedOp, WF, StagesOf, KeepalivesLast, Finished, Sound, CacheStatus, Detect, B.MFeed, B.MComplete, B.Serves;
    var a := c.active.value;
    LiveActive(c);
    FeedMatches(a, m, env, now);
    FeedKeepsKind(a, env, now);
    DeliverKeepsWF(c, env, now);
    FeedKeepsKept(a, env, now);
    FeedKeepsStage(a, env, now);
    FeedServes(stage, m, env, now);
    hide StageOf, Within, MachineOf;
    Associative(B.MFeed(m, env, now).sends, [], []);
  }

  /** What a message leads to, the active operation having taken it. */
  lemma DeliverConcludes(c: Client, env: Envelope, now: nat)
    requires WF(c) && c.active.Some? && MachineOf(c.active.value).Some?
    ensures var f := FeedOp(c.active.value, env, now);
            && Sound(f.a) && f.signal == SignalOf(f.a)
            && var d := c.(status := CacheStatus(c.status, env), active := Some(f.a));
               var (o, x) := (Deliver(c, env, now), Conclude(d, f.signal, now));
               o.c == x.c && o.sent == f.sends + x.sent && o.result == x.result
  {
    FeedKeepsSound(c.active.value, env, now);
    hide Feed, R.ArmFeed, Sound, Finished, CacheStatus, Conclude;
  }

  /** A complete handshake phase gives way to the next one, */
  lemma ConcludePhase(d: Client, stage: B.Stage, n: B.Machine, now: nat)
    requires d.active.Some? && MachineOf(d.active.value) == Some(n) && StageOf(d.active.value) == stage
    requires Sound(d.active.value) && Finished(d.active.value) && Within(d.active.value) != []
    requires B.Serves(stage, n) && B.MComplete(n)
    ensures var (o, next) := (Conclude(d, SignalOf(d.active.value), now), Within(d.active.value)[0]);
            && o.c == d.(active := o.c.active, deadline := Some(now + d.opTimeout)) && o.c.active.Some?
            && (var a := o.c.active.value;
                && MachineOf(a) == Some(B.Enter(next)) && StageOf(a) == next && Within(a) == Within(d.active.value)[1..])
            && B.Serves(next, B.Enter(next))
            && o.sent == B.FirstSend(next) && o.result == Quiet && TakesIn(d, B.ResultOf(stage, n), o)
  {
    hide D.DspResult, A.AvrResult, P.PiResult, D.DspScript, A.AvrScript, P.PiScript, Finished, Complete, Good;
  }

  /** and a complete operation to none. */
  lemma ConcludeLast(d: Client, stage: B.Stage, n: B.Machine, now: nat)
    requires d.active.Some? && MachineOf(d.active.value) == Some(n) && StageOf(d.active.value) == stage
    requires Sound(d.active.value) && Finished(d.active.value) && Within(d.active.value) == []
    requires B.Serves(stage, n) && B.MComplete(n)
    ensures var o := Conclude(d, SignalOf(d.active.value), now);
            && o.c.active.None? && o.c.queue == d.queue && o.c.shot == d.shot && o.c.opTimeout == d.opTimeout
            && o.sent == [] && TakesIn(d, B.ResultOf(stage, n), o)
  {
    hide D.DspResult, A.AvrResult, P.PiResult, D.DspScript, A.AvrScript, P.PiScript, C.AvrConfigScript, C.CamScript;
    hide Finished, Complete, Good, Sound, StartNext, B.Serves, B.ScriptOf;
  }

  /** A handshake phase completes: both sides enter the next one at once. */
  lemma DeliverPhase(c: Client, stage: B.Stage, m: B.Machine, deadline: nat, after: seq<B.Stage>, env: Envelope,
        now: nat)
    requires Mid(c, stage, m, deadline, after) && B.MComplete(B.MFeed(m, env, now).next) && Within(c.active.value) != []
    ensures after != []
    ensures var (o, f) := (Deliver(c, env, now), B.MFeed(m, env, now));
            && o.sent == f.sends + B.FirstSend(after[0]) && o.result == Quiet && TakesIn(c, B.ResultOf(stage, f.next), o)
            && Mid(o.c, after[0], B.Enter(after[0]), now + B.PATIENCE, after[1..])
  {
    hide FeedOp, WF, Sound, Finished, StagesOf, KeepalivesLast, CacheStatus, Deliver, Conclude, SignalOf;
    hide B.MFeed, B.MComplete, B.Serves, B.ResultOf, B.Enter, B.FirstSend, StageOf, MachineOf, Within, KeptBy;
    var a := c.active.value;
    var f := FeedOp(a, env, now);
    FeedMatches(a, m, env, now);
    FeedKeepsKept(a, env, now);
    FeedKeepsStage(a, env, now);
    FeedServes(stage, m, env, now);
    DeliverKeepsWF(c, env, now);
    DeliverConcludes(c, env, now);
    ConcludePhase(c.(status := CacheStatus(c.status, env), active := Some(f.a)), stage, B.MFeed(m, env, now).next, now);
    assert (Within(a) + StagesOf(c.queue))[0] == Within(a)[0];
    assert (Within(a) + StagesOf(c.queue))[1..] == Within(a)[1..] + StagesOf(c.queue);
  }

  lemma FeedKeepsKept(a: Active, env: Envelope, now: nat)
    ensures KeptBy(FeedOp(a, env, now).a) == KeptBy(a)
  {
    hide Feed, R.ArmFeed, S.ShotFeed;
  }

  lemma FeedKeepsStage(a: Active, env: Envelope, now: nat)
    requires MachineOf(a).Some?
    ensures var b := FeedOp(a, env, now).a; MachineOf(b).Some? && StageOf(b) == StageOf(a) && Within(b) == Within(a)
  {
    hide Feed, R.ArmFeed, S.ShotFeed;
  }

  lemma FeedServes(stage: B.Stage, m: B.Machine, env: Envelope, now: nat)
    ensures B.Serves(stage, m) ==> B.Serves(stage, B.MFeed(m, env, now).next)
  {}

  lemma LiveActive(c: Client)
    requires WF(c) && c.active.Some?
    ensures Sound(c.active.value) && !Finished(c.active.value) && c.deadline.Some?
  {}

  /** An operation completes: the client reports it and idles, the program goes on to the next stage. */
  lemma DeliverLast(c: Client, stage: B.Stage, m: B.Machine, deadline: nat, after: seq<B.Stage>, env: Envelope,
        now: nat)
    requires Mid(c, stage, m, deadline, after) && B.MComplete(B.MFeed(m, env, now).next) && Within(c.active.value) == []
    ensures var (o, f) := (Deliver(c, env, now), B.MFeed(m, env, now));
            && o.sent == f.sends && TakesIn(c, B.ResultOf(stage, f.next), o) && Idle(o.c, after)
  {
    hide FeedOp, WF, Sound, Finished, StagesOf, KeepalivesLast, CacheStatus, Deliver, Conclude, SignalOf;
    hide B.MFeed, B.MComplete, B.Serves, B.ResultOf, StageOf, MachineOf, Within, KeptBy;
    var a := c.active.value;
    var f := FeedOp(a, env, now);
    FeedMatches(a, m, env, now);
    FeedKeepsKept(a, env, now);
    FeedKeepsStage(a, env, now);
    FeedServes(stage, m, env, now);
    DeliverKeepsWF(c, env, now);
    DeliverConcludes(c, env, now);
    ConcludeLast(c.(status := CacheStatus(c.status, env), active := Some(f.a)), stage, B.MFeed(m, env, now).next, now);
    Associative(f.sends, [], []);
    Associative(StagesOf(c.queue), [], []);
  }

  // ---- starting an operation ---------------------------------------------------------------

  /** An idle client's poll starts the next operation and then goes on as if it had been under way. */
  lemma PollStarts(c: Client, stages: seq<B.Stage>, tick: Tick)
    requires Idle(c, stages) && stages != [] && (stages[0].ConfigureAvr? ==> !c.armed)
    ensures var s := StartNext(c, tick.now).c;
            && Mid(s, stages[0], B.Enter(stages[0]), tick.now + B.PATIENCE, stages[1..])
            && KeptIn(s) == NOTHING_KEPT && s.armed == c.armed
            && Poll(c, tick).c == Poll(s, tick).c && Poll(c, tick).result == Poll(s, tick).result
            && Poll(c, tick).sent == B.FirstSend(stages[0]) + Poll(s, tick).sent
  {
    QueueHead(c.queue);
    var op := c.queue[0];
    StartKeepsWF(c.(queue := c.queue[1..]), op, tick.now);
    StartedMid(c, stages, tick.now);
    var o := StartNext(c, tick.now);
    SameAfterStart(c, tick, B.FirstSend(stages[0]));
  }

  /** What an operation is started with is what its first wrapper is entered with. */
  lemma StartEnters(c: Client, op: Op, now: nat)
    requires !op.Keepalive? && (op.ConfigureAvr? ==> !c.armed)
    ensures var (o, stages) := (Start(c, op, now), StagesOfOp(op));
            && stages != [] && o.c == c.(active := o.c.active, deadline := Some(now + c.opTimeout)) && o.c.active.Some?
            && (var a := o.c.active.value;
                && MachineOf(a) == Some(B.Enter(stages[0])) && StageOf(a) == stages[0] && Within(a) == stages[1..]
                && KeptBy(a) == NOTHING_KEPT && B.Serves(stages[0], B.Enter(stages[0])))
            && o.sent == B.FirstSend(stages[0])
  {
    hide D.DspScript, A.AvrScript, P.PiScript, C.AvrConfigScript, C.CamScript, C.DisarmScript;
  }

  lemma StartedMid(c: Client, stages: seq<B.Stage>, now: nat)
    requires Idle(c, stages) && stages != [] && (stages[0].ConfigureAvr? ==> !c.armed) && WF(StartNext(c, now).c)
    ensures var o := StartNext(c, now);
            && Mid(o.c, stages[0], B.Enter(stages[0]), now + B.PATIENCE, stages[1..])
            && o.sent == B.FirstSend(stages[0]) && KeptIn(o.c) == NOTHING_KEPT && o.c.armed == c.armed
  {
    QueueHead(c.queue);
    var op := c.queue[0];
    StartEnters(c.(queue := c.queue[1..]), op, now);
    HeadStages(op, StagesOf(c.queue[1..]));
    hide WF, StagesOf, StagesOfOp, KeepalivesLast, Start, MachineOf, StageOf, Within, KeptBy, B.Enter, B.FirstSend, B.Serves;
  }

  lemma HeadStages(op: Op, rest: seq<B.Stage>)
    requires StagesOfOp(op) != []
    ensures (StagesOfOp(op) + rest)[0] == StagesOfOp(op)[0] && (StagesOfOp(op) + rest)[1..] == StagesOfOp(op)[1..] + rest
    ensures StagesOfOp(op)[0].ConfigureAvr? <==> op.ConfigureAvr?
  {}

  /** The start-up step done, a second one in the same poll would change nothing. */
  lemma SameAfterStart(c: Client, tick: Tick, first: seq<Action>)
    requires WF(c) && c.active.None? && c.deadline.None? && c.queue != [] && WF(StartNext(c, tick.now).c)
    requires var s := StartNext(c, tick.now);
             s.c.active.Some? && s.c.deadline.Some? && s.c.deadline.value > tick.now && s.sent == first
    ensures var s := StartNext(c, tick.now).c;
            && Poll(c, tick).c == Poll(s, tick).c && Poll(c, tick).result == Poll(s, tick).result
            && Poll(c, tick).sent == first + Poll(s, tick).sent
  {
    hide Start, WF, Expiries, AutoKeepalive, Deliver;
    BeforeRecvKeepsWF(c, tick.now);
    var s := StartNext(c, tick.now);
    BeforeRecvKeepsWF(s.c, tick.now);
    assert StartNext(s.c, tick.now) == Out(s.c, [], [], Quiet);
    var e := Expiries(s.c, tick.now);
    Associative(e.sent, [], []);
    if tick.env.Some? { Associative(first, e.sent, Deliver(BeforeRecv(s.c, tick.now).c, tick.env.value, tick.now).sent); }
  }

  // ---- whole runs --------------------------------------------------------------------------

  /** How one round shows in the rest of a blocking program. */
  lemma ContinueUnfolds(stage: B.Stage, m: B.Machine, deadline: nat, after: seq<B.Stage>, ticks: seq<Tick>)
    requires B.Serves(stage, m) && ticks != [] && ticks[0].now < deadline
    ensures var (r, rest) := (B.ContinueProgram(stage, m, deadline, after, ticks), ticks[1..]);
            var e := B.BeforeRound(stage.SyncAvr?, m, ticks[0].now);
            if ticks[0].env.None? then
              var r' := B.ContinueProgram(stage, e.next, deadline, after, rest); r == r'.(sent := e.sends + r'.sent)
            else
              var f := B.MFeed(e.next, ticks[0].env.value, ticks[0].now);
              var r' := if B.MComplete(f.next) then B.Program(after, ticks[0].now, rest)
                        else B.ContinueProgram(stage, f.next, deadline, after, rest);
              r == r'.(sent := e.sends + f.sends + r'.sent,
                       results := (if B.MComplete(f.next) then [B.ResultOf(stage, f.next)] else []) + r'.results)
  {
    hide B.BeforeRound, B.MFeed, B.MComplete, B.Program;
    var e := B.BeforeRound(stage.SyncAvr?, m, ticks[0].now);
    if ticks[0].env.None? {
      var d := B.DriveRun(stage.SyncAvr?, e.next, deadline, ticks[1..]);
      Associative(e.sends, d.sent, B.Program(after, d.at, d.left).sent);
    } else {
      var f := B.MFeed(e.next, ticks[0].env.value, ticks[0].now);
      var d := B.DriveRun(stage.SyncAvr?, f.next, deadline, ticks[1..]);
      Associative(e.sends + f.sends, d.sent, B.Program(after, d.at, d.left).sent);
    }
  }

  /** One agreeing round in front of agreeing runs. */
  lemma AgreeStep(c: Client, ticks: seq<Tick>, r: B.Ran, x: seq<Action>, r': B.Ran)
    requires WF(c) && ticks != [] && WF(Poll(c, ticks[0]).c) && |r'.left| <= |ticks| - 1
    requires var o := Poll(c, ticks[0]);
             && o.sent == x && o.result != TimedOut && Agree(o.c, ticks[1..], r')
             && Reports(KeptIn(c), r.results) == EventsOf(o.result) + Reports(KeptIn(o.c), r'.results)
    requires r == r'.(sent := x + r'.sent, results := r.results)
    ensures Agree(c, ticks, r)
  {
    hide Poll, WF, Reports, Unsent, KeptIn;
    var n := |ticks| - |r.left|;
    var used := ticks[..n];
    assert used[0] == ticks[0] && used[1..] == ticks[1..][..n - 1];
    var p := PollAll(Poll(c, ticks[0]).c, used[1..]);
    Associative(x, p.sent, Unsent(p.c));
  }

  lemma {:induction false} MidRuns(c: Client, stage: B.Stage, m: B.Machine, deadline: nat, after: seq<B.Stage>,
        now: nat, ticks: seq<Tick>)
    requires Mid(c, stage, m, deadline, after) && InTimeOrder(now, ticks) && WF(c) && B.Serves(stage, m)
    requires NeverConfiguresArmed(c.armed, KeptIn(c), [stage] + after,
                                  B.ContinueProgram(stage, m, deadline, after, ticks).results)
    ensures Agree(c, ticks, B.ContinueProgram(stage, m, deadline, after, ticks))
    decreases |ticks|, 0
  {
    hide Poll, Mid, Idle, WF, BeforeRecv, Deliver, KeptIn, NeverConfiguresArmed;
    hide Reports, B.Serves, B.ContinueProgram, B.Program, B.MFeed, B.BeforeRound, B.MComplete, Agree, PollAll;
    MidIsWF(c, stage, m, deadline, after);
    if ticks == [] || ticks[0].now >= deadline {
      NothingAgrees(c, stage, m, deadline, after, ticks);
    } else {
      var t := ticks[0];
      BeforeRecvMid(c, stage, m, deadline, after, t.now);
      var b := BeforeRecv(c, t.now);
      var e := B.BeforeRound(stage.SyncAvr?, m, t.now);
      ContinueUnfolds(stage, m, deadline, after, ticks);
      PollKeepsWF(c, t);
      MidIsWF(b.c, stage, e.next, deadline, after);
      PollSplits(c, t);
      if t.env.None? {
        var r' := B.ContinueProgram(stage, e.next, deadline, after, ticks[1..]);
        MidRuns(b.c, stage, e.next, deadline, after, t.now, ticks[1..]);
        Associative(Reports(KeptIn(c), r'.results), [], []);
        AgreeStep(c, ticks, B.ContinueProgram(stage, m, deadline, after, ticks), e.sends, r');
      } else {
        MidMessage(c, stage, m, deadline, after, ticks, b.c, e);
      }
    }
  }

  lemma MidIsWF(c: Client, stage: B.Stage, m: B.Machine, deadline: nat, after: seq<B.Stage>)
    requires Mid(c, stage, m, deadline, after)
    ensures WF(c) && c.active.Some? && B.Serves(stage, m)
  {}

  lemma IdleIsWF(c: Client, stages: seq<B.Stage>)
    requires Idle(c, stages)
    ensures WF(c)
  {}

  lemma PollSplits(c: Client, t: Tick)
    requires WF(c) && !Overdue(c, t.now) && WF(BeforeRecv(c, t.now).c)
    ensures t.env.None? ==> Poll(c, t) == BeforeRecv(c, t.now)
    ensures t.env.Some? ==>
              var (b, d) := (BeforeRecv(c, t.now), Deliver(BeforeRecv(c, t.now).c, t.env.value, t.now));
              Poll(c, t) == Out(d.c, b.sent + d.sent, b.log + d.log, d.result)
  {
    hide BeforeRecv, Deliver, WF;
  }

  lemma NothingAgrees(c: Client, stage: B.Stage, m: B.Machine, deadline: nat, after: seq<B.Stage>, ticks: seq<Tick>)
    requires WF(c) && c.active.Some? && B.Serves(stage, m) && (ticks == [] || ticks[0].now >= deadline)
    ensures Agree(c, ticks, B.ContinueProgram(stage, m, deadline, after, ticks))
  {
    hide WF;
  }

  /** A round with a message, after its start-up and timeouts have led to b and e. */
  predicate Round(c: Client, stage: B.Stage, m: B.Machine, deadline: nat, after: seq<B.Stage>, ticks: seq<Tick>,
        b: Client, e: B.MStep) {
    && WF(c) && WF(b) && ticks != [] && ticks[0].env.Some? && WF(Poll(c, ticks[0]).c)
    && InTimeOrder(ticks[0].now, ticks[1..])
    && B.Serves(stage, m) && Mid(b, stage, e.next, deadline, after) && KeptIn(b) == KeptIn(c) && b.armed == c.armed
    && (var (o, d) := (Poll(c, ticks[0]), Deliver(b, ticks[0].env.value, ticks[0].now));
        o.c == d.c && o.sent == e.sends + d.sent && o.result == d.result)
  }

  /** The message leaves the wrapper waiting, */
  lemma {:induction false} MidWaits(c: Client, stage: B.Stage, m: B.Machine, deadline: nat, after: seq<B.Stage>,
        ticks: seq<Tick>, b: Client, e: B.MStep)
    requires Round(c, stage, m, deadline, after, ticks, b, e)
    requires NeverConfiguresArmed(c.armed, KeptIn(c), [stage] + after,
                                  B.ContinueProgram(stage, m, deadline, after, ticks).results)
    requires var f := B.MFeed(e.next, ticks[0].env.value, ticks[0].now);
             && B.Serves(stage, f.next) && !B.MComplete(f.next)
             && var r' := B.ContinueProgram(stage, f.next, deadline, after, ticks[1..]);
                B.ContinueProgram(stage, m, deadline, after, ticks) == r'.(sent := e.sends + f.sends + r'.sent)
    ensures Agree(c, ticks, B.ContinueProgram(stage, m, deadline, after, ticks))
    decreases |ticks| - 1, 2
  {
    hide Poll, Idle, WF, InTimeOrder, BeforeRecv, Deliver;
    hide KeptIn, KeptAfter, Reports, EventsFor, ArmedAfter, NeverConfiguresArmed;
    hide B.Serves, B.ResultOf, B.ContinueProgram, B.Program, B.MFeed, B.BeforeRound, B.MComplete, Agree, PollAll;
    hide KeepalivesLast, StagesOf, MachineOf, StageOf, Calm, Mid, Within;
    var (now, env, rest) := (ticks[0].now, ticks[0].env.value, ticks[1..]);
    var f := B.MFeed(e.next, env, now);
    var d := Deliver(b, env, now);
    DeliverMid(b, stage, e.next, deadline, after, env, now);
    MidRuns(d.c, stage, f.next, deadline, after, now, rest);
    var r' := B.ContinueProgram(stage, f.next, deadline, after, rest);
    Associative(Reports(KeptIn(c), r'.results), [], []);
    AgreeStep(c, ticks, B.ContinueProgram(stage, m, deadline, after, ticks), e.sends + f.sends, r');
  }

  /** lets it return into the next phase of a handshake, */
  lemma {:induction false} MidEnters(c: Client, stage: B.Stage, m: B.Machine, deadline: nat, after: seq<B.Stage>,
        ticks: seq<Tick>, b: Client, e: B.MStep)
    requires Round(c, stage, m, deadline, after, ticks, b, e) && b.active.Some? && Within(b.active.value) != []
    requires NeverConfiguresArmed(c.armed, KeptIn(c), [stage] + after,
                                  B.ContinueProgram(stage, m, deadline, after, ticks).results)
    requires var f := B.MFeed(e.next, ticks[0].env.value, ticks[0].now);
             && B.Serves(stage, f.next) && B.MComplete(f.next)
             && var r' := B.Program(after, ticks[0].now, ticks[1..]);
                B.ContinueProgram(stage, m, deadline, after, ticks)
                  == r'.(sent := e.sends + f.sends + r'.sent, results := [B.ResultOf(stage, f.next)] + r'.results)
    ensures Agree(c, ticks, B.ContinueProgram(stage, m, deadline, after, ticks))
    decreases |ticks| - 1, 2
  {
    hide Poll, Idle, WF, InTimeOrder, BeforeRecv, Deliver;
    hide KeptIn, KeptAfter, Reports, EventsFor, ArmedAfter, NeverConfiguresArmed;
    hide B.Serves, B.ResultOf, B.ContinueProgram, B.Program, B.MFeed, B.BeforeRound, B.MComplete, Agree, PollAll;
    hide KeepalivesLast, StagesOf, MachineOf, StageOf, Calm, Mid, Within;
    var (now, env, rest) := (ticks[0].now, ticks[0].env.value, ticks[1..]);
    var f := B.MFeed(e.next, env, now);
    var d := Deliver(b, env, now);
    DeliverPhase(b, stage, e.next, deadline, after, env, now);
    ProgramEnters(after, now, rest);
    NextStage(c.armed, KeptIn(c), stage, after, B.ResultOf(stage, f.next), B.Program(after, now, rest).results);
    assert [after[0]] + after[1..] == after;
    MidRuns(d.c, after[0], B.Enter(after[0]), now + B.PATIENCE, after[1..], now, rest);
    var r' := B.ContinueProgram(after[0], B.Enter(after[0]), now + B.PATIENCE, after[1..], rest);
    Associative(e.sends, f.sends, B.FirstSend(after[0]));
    Associative(e.sends + f.sends, B.FirstSend(after[0]), r'.sent);
    ReportsNext(KeptIn(c), B.ResultOf(stage, f.next), r'.results);
    AgreeStep(c, ticks, B.ContinueProgram(stage, m, deadline, after, ticks), e.sends + f.sends + B.FirstSend(after[0]), r');
  }

  /** or lets it return and completes the operation. */
  lemma {:induction false} MidReturns(c: Client, stage: B.Stage, m: B.Machine, deadline: nat, after: seq<B.Stage>,
        ticks: seq<Tick>, b: Client, e: B.MStep)
    requires Round(c, stage, m, deadline, after, ticks, b, e) && b.active.Some? && Within(b.active.value) == []
    requires NeverConfiguresArmed(c.armed, KeptIn(c), [stage] + after,
                                  B.ContinueProgram(stage, m, deadline, after, ticks).results)
    requires var f := B.MFeed(e.next, ticks[0].env.value, ticks[0].now);
             && B.Serves(stage, f.next) && B.MComplete(f.next)
             && var r' := B.Program(after, ticks[0].now, ticks[1..]);
                B.ContinueProgram(stage, m, deadline, after, ticks)
                  == r'.(sent := e.sends + f.sends + r'.sent, results := [B.ResultOf(stage, f.next)] + r'.results)
    ensures Agree(c, ticks, B.ContinueProgram(stage, m, deadline, after, ticks))
    decreases |ticks| - 1, 2
  {
    hide Poll, Idle, WF, InTimeOrder, BeforeRecv, Deliver;
    hide KeptIn, KeptAfter, Reports, EventsFor, ArmedAfter, NeverConfiguresArmed;
    hide B.Serves, B.ResultOf, B.ContinueProgram, B.Program, B.MFeed, B.BeforeRound, B.MComplete, Agree, PollAll;
    hide KeepalivesLast, StagesOf, MachineOf, StageOf, Calm, Mid, Within;
    var (now, env, rest) := (ticks[0].now, ticks[0].env.value, ticks[1..]);
    var f := B.MFeed(e.next, env, now);
    var d := Deliver(b, env, now);
    DeliverLast(b, stage, e.next, deadline, after, env, now);
    IdleIsWF(d.c, after);
    IdleUnsent(d.c, after);
    NextStage(c.armed, KeptIn(c), stage, after, B.ResultOf(stage, f.next), B.Program(after, now, rest).results);
    IdleRuns(d.c, after, now, rest);
    var r' := B.Program(after, now, rest);
    ReportsNext(KeptIn(c), B.ResultOf(stage, f.next), r'.results);
    AgreeStep(c, ticks, B.ContinueProgram(stage, m, deadline, after, ticks), e.sends + f.sends, r');
  }

  lemma ProgramEnters(stages: seq<B.Stage>, now: nat, ticks: seq<Tick>)
    requires stages != []
    ensures B.Serves(stages[0], B.Enter(stages[0]))
    ensures var r' := B.ContinueProgram(stages[0], B.Enter(stages[0]), now + B.PATIENCE, stages[1..], ticks);
            B.Program(stages, now, ticks) == r'.(sent := B.FirstSend(stages[0]) + r'.sent)
  {
    hide B.ContinueProgram;
  }

  lemma {:induction false} MidMessage(c: Client, stage: B.Stage, m: B.Machine, deadline: nat, after: seq<B.Stage>,
        ticks: seq<Tick>, b: Client, e: B.MStep)
    requires Round(c, stage, m, deadline, after, ticks, b, e)
    requires NeverConfiguresArmed(c.armed, KeptIn(c), [stage] + after,
                                  B.ContinueProgram(stage, m, deadline, after, ticks).results)
    requires ticks[0].now < deadline && e == B.BeforeRound(stage.SyncAvr?, m, ticks[0].now)
    ensures Agree(c, ticks, B.ContinueProgram(stage, m, deadline, after, ticks))
    decreases |ticks| - 1, 3
  {
    hide Poll, Idle, WF, InTimeOrder, BeforeRecv, Deliver;
    hide KeptIn, KeptAfter, Reports, EventsFor, ArmedAfter, NeverConfiguresArmed;
    hide B.Serves, B.ResultOf, B.ContinueProgram, B.Program, B.MFeed, B.BeforeRound, B.MComplete, Agree, PollAll;
    hide KeepalivesLast, StagesOf, MachineOf, StageOf, Calm, Mid, Within;
    var (now, env) := (ticks[0].now, ticks[0].env.value);
    ContinueUnfolds(stage, m, deadline, after, ticks);
    MidIsWF(b, stage, e.next, deadline, after);
    FeedServes(stage, e.next, env, now);
    if !B.MComplete(B.MFeed(e.next, env, now).next) {
      MidWaits(c, stage, m, deadline, after, ticks, b, e);
    } else if Within(b.active.value) != [] {
      MidEnters(c, stage, m, deadline, after, ticks, b, e);
    } else {
      MidReturns(c, stage, m, deadline, after, ticks, b, e);
    }
  }

  lemma {:induction false} IdleRuns(c: Client, stages: seq<B.Stage>, now: nat, ticks: seq<Tick>)
    requires Idle(c, stages) && InTimeOrder(now, ticks) && WF(c)
    requires NeverConfiguresArmed(c.armed, NOTHING_KEPT, stages, B.Program(stages, now, ticks).results)
    ensures Agree(c, ticks, B.Program(stages, now, ticks))
    decreases |ticks|, 1
  {
    hide Poll, Mid, WF, StartNext, KeptIn, Reports, B.ContinueProgram, Calm, KeepalivesLast, Agree, Idle, Unsent;
    if stages == [] || ticks == [] {
      NothingToDo(c, stages, now, ticks);
    } else {
      var s := StartNext(c, ticks[0].now).c;
      PollStarts(c, stages, ticks[0]);
      MidEarlier(s, stages[0], B.Enter(stages[0]), ticks[0].now + B.PATIENCE, stages[1..], now + B.PATIENCE);
      ProgramEnters(stages, now, ticks);
      assert [stages[0]] + stages[1..] == stages;
      MidRuns(s, stages[0], B.Enter(stages[0]), now + B.PATIENCE, stages[1..], now, ticks);
      IdleUnsent(c, stages);
      AgreeStarted(c, s, ticks, B.ContinueProgram(stages[0], B.Enter(stages[0]), now + B.PATIENCE, stages[1..], ticks));
    }
  }

  lemma IdleUnsent(c: Client, stages: seq<B.Stage>)
    requires Idle(c, stages)
    ensures stages != [] ==> Unsent(c) == B.FirstSend(stages[0])
    ensures KeptIn(c) == NOTHING_KEPT
  {}

  lemma NothingToDo(c: Client, stages: seq<B.Stage>, now: nat, ticks: seq<Tick>)
    requires Idle(c, stages) && WF(c) && (stages == [] || ticks == [])
    ensures Agree(c, ticks, B.Program(stages, now, ticks))
  {
    hide WF, Calm, StagesOf;
  }

  lemma MidEarlier(c: Client, stage: B.Stage, m: B.Machine, deadline: nat, after: seq<B.Stage>, earlier: nat)
    requires Mid(c, stage, m, deadline, after) && earlier <= deadline
    ensures Mid(c, stage, m, earlier, after) && WF(c)
  {}

  /** Starting an operation in the first poll only puts its first command in front. */
  lemma AgreeStarted(c: Client, s: Client, ticks: seq<Tick>, r: B.Ran)
    requires WF(c) && WF(s) && s.active.Some? && KeptIn(s) == KeptIn(c) && ticks != [] && |r.left| <= |ticks|
    requires Poll(c, ticks[0]).c == Poll(s, ticks[0]).c && Poll(c, ticks[0]).result == Poll(s, ticks[0]).result
    requires Poll(c, ticks[0]).sent == Unsent(c) + Poll(s, ticks[0]).sent
    requires r.end.Finished? ==> |r.left| < |ticks|
    requires Agree(s, ticks, r)
    ensures Agree(c, ticks, r.(sent := Unsent(c) + r.sent))
  {
    hide Poll, WF, Reports, KeptIn, B.FirstSend, StagesOf;
    var used := ticks[..|ticks| - |r.left|];
    if used != [] {
      assert used[0] == ticks[0];
      PollKeepsWF(s, ticks[0]);
      var p := PollAll(Poll(s, ticks[0]).c, used[1..]);
      Associative(Unsent(c), Poll(s, ticks[0]).sent, p.sent);
      Associative(Unsent(c), Poll(s, ticks[0]).sent + p.sent, Unsent(p.c));
    }
  }

  // ---- when the hypothesis holds -------------------------------------------------------------

  predicate ComesFrom(stage: B.Stage, result: B.Returned) {
    match stage
    case SyncDsp => result.SyncedDsp?
    case SyncAvr => result.SyncedAvr?
    case SyncPi => result.SyncedPi?
    case ConfigureAvr(_) => result.AvrConfigured?
    case ConfigureCamera(_) => result.CameraConfigured?
    case ArmDevice => result.DeviceArmed?
  }

  predicate AllComeFrom(stages: seq<B.Stage>, results: seq<B.Returned>) {
    |results| <= |stages| && forall i | 0 <= i < |results| :: ComesFrom(stages[i], results[i])
  }

  /** Each wrapper returns a result of its own kind. */
  lemma {:induction false} ProgramResults(stages: seq<B.Stage>, now: nat, ticks: seq<Tick>)
    ensures AllComeFrom(stages, B.Program(stages, now, ticks).results)
    decreases |stages|
  {
    hide B.DriveRun, B.MComplete;
    if stages != [] {
      var (stage, after) := (stages[0], stages[1..]);
      var d := B.DriveRun(stage.SyncAvr?, B.Enter(stage), now + B.PATIENCE, ticks);
      if d.end.Finished? { ProgramResults(after, d.at, d.left); }
    }
  }

  lemma {:induction false} NothingToConfigure(armed: bool, k: Kept, stages: seq<B.Stage>, results: seq<B.Returned>)
    requires forall i | 0 <= i < |stages| :: !stages[i].ConfigureAvr?
    ensures NeverConfiguresArmed(armed, k, stages, results)
    decreases |stages|
  {
    if stages != [] && results != [] {
      NothingToConfigure(ArmedAfter(armed, k, results[0]), KeptAfter(k, results[0]), stages[1..], results[1..]);
    }
  }

  predicate NotSix(result: B.Returned) { result.SyncedDsp? ==> result.dsp.status.state != 6 }

  /** With no configuration behind an arm in the program, only a handshake that finds state 6 can arm too early. */
  lemma {:induction false} ConfiguresFirst(k: Kept, stages: seq<B.Stage>, results: seq<B.Returned>)
    requires AllComeFrom(stages, results) && forall i | 0 <= i < |results| :: NotSix(results[i])
    requires k.dsp.Some? ==> k.dsp.value.status.state != 6
    requires forall i, j | 0 <= i < j < |stages| :: stages[i].ArmDevice? ==> !stages[j].ConfigureAvr?
    ensures NeverConfiguresArmed(false, k, stages, results)
    decreases |stages|
  {
    hide NeverConfiguresArmed;
    if stages == [] || results == [] {
      NothingEntered(false, k, stages);
    } else {
      var (after, rest) := (stages[1..], results[1..]);
      var next := KeptAfter(k, results[0]);
      assert ComesFrom(stages[0], results[0]) && NotSix(results[0]);
      assert forall i | 0 <= i < |after| :: after[i] == stages[i + 1];
      assert forall i | 0 <= i < |rest| :: rest[i] == results[i + 1];
      if stages[0].ArmDevice? {
        NothingToConfigure(true, next, after, rest);
      } else {
        ConfiguresFirst(next, after, rest);
      }
      EntersNext(false, k, stages, results);
    }
  }

  lemma NothingEntered(armed: bool, k: Kept, stages: seq<B.Stage>)
    requires stages != [] && stages[0].ConfigureAvr? ==> !armed
    ensures NeverConfiguresArmed(armed, k, stages, [])
    ensures stages == [] ==> forall results :: NeverConfiguresArmed(armed, k, stages, results)
  {}

  lemma EntersNext(armed: bool, k: Kept, stages: seq<B.Stage>, results: seq<B.Returned>)
    requires stages != [] && results != [] && (stages[0].ConfigureAvr? ==> !armed)
    requires NeverConfiguresArmed(ArmedAfter(armed, k, results[0]), KeptAfter(k, results[0]), stages[1..], results[1..])
    ensures NeverConfiguresArmed(armed, k, stages, results)
  {}

  /**
   * The poll loop refines the blocking program. For any operations, over rounds in time order in which the
   * program of blocking wrappers enters no AVR configuration while armed, and however that program ends:
   * polling over the rounds it saw times out nowhere, has sent what it has sent, up to the first command of a
   * wrapper the client will enter when next polled, and has emitted exactly the events that tell what the
   * wrappers have returned, the same handshake results included. When the program finishes both have sent the
   * same.
   */
  lemma PollLoopRefinesBlocking(start: nat, ops: seq<Op>, ticks: seq<Tick>)
    requires (forall i | 0 <= i < |ops| :: !ops[i].Keepalive?) && InTimeOrder(start, ticks)
    requires NeverConfiguresArmed(false, NOTHING_KEPT, StagesOf(ops), B.Program(StagesOf(ops), start, ticks).results)
    ensures WF(New(start).(queue := ops))
    ensures var r := B.Program(StagesOf(ops), start, ticks);
            var p := PollAll(New(start).(queue := ops), ticks[..|ticks| - |r.left|]);
            && !p.timedOut
            && r.sent == p.sent + Unsent(p.c)
            && p.events == Reports(NOTHING_KEPT, r.results)
            && (r.end.Finished? ==> p.sent == r.sent && |r.results| == |StagesOf(ops)|)
  {
    hide B.Program, PollAll, Reports, InTimeOrder, Unsent, StagesOf, NeverConfiguresArmed;
    IdleRuns(New(start).(queue := ops), StagesOf(ops), start, ticks);
  }

  /** In particular: without an AVR configuration behind an arm, unless a handshake finds the device armed. */
  lemma ConfigureBeforeArm(start: nat, ops: seq<Op>, ticks: seq<Tick>)
    requires forall i, j | 0 <= i < j < |StagesOf(ops)| :: StagesOf(ops)[i].ArmDevice? ==> !StagesOf(ops)[j].ConfigureAvr?
    requires forall x | x in B.Program(StagesOf(ops), start, ticks).results :: NotSix(x)
    ensures NeverConfiguresArmed(false, NOTHING_KEPT, StagesOf(ops), B.Program(StagesOf(ops), start, ticks).results)
  {
    hide B.Program, StagesOf;
    ProgramResults(StagesOf(ops), start, ticks);
    ConfiguresFirst(NOTHING_KEPT, StagesOf(ops), B.Program(StagesOf(ops), start, ticks).results);
  }
}
