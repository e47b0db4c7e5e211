/**
 * The scheduler of src/client.rs as a function of its state: what one `poll` does, given the time it
 * runs at and what `recv` returns. `BinaryClient` (Client.dfy) is proved to compute it.
 */
module ClientSpec {
  import opened Prelude
  import opened Wire
  import opened Protocol
  import opened Script
  import D = DspSeq
  import A = AvrSeq
  import P = PiSeq
  import C = ConfigSeq
  import R = ArmSeq
  import S = ShotSeq

  datatype Op = Handshake | ConfigureAvr(settings: C.AvrSettings) | ConfigureCam(cam: Payload) | Arm | Keepalive

  datatype HandshakeOutcome = HandshakeOutcome(dsp: D.DspSync, avr: A.AvrSync, pi: P.PiSync)

  datatype Snapshot = Snapshot(dsp: Option<DspStatusData>, avr: Option<Payload>, pi: Option<Payload>)

  datatype Event =
    | HandshakeDone(outcome: HandshakeOutcome)
    | Disarmed
    | Configured
    | Armed
    | Trigger
    | Datum(datum: S.ShotDatum)
    | ShotComplete(data: S.ShotData)
    | KeepaliveDone(status: Snapshot)
    | Passed(env: Envelope)

  datatype KaState = KaState(gotDsp: bool, gotAvr: bool, gotPi: bool)

  /** The operation in progress; a later handshake phase carries the results of the earlier ones. */
  datatype Active =
    | HsDsp(p: Progress)
    | HsAvr(p: Progress, dsp: D.DspSync)
    | HsPi(p: Progress, dsp: D.DspSync, avr: A.AvrSync)
    | Disarming(p: Progress)
    | ConfiguringAvr(p: Progress, settings: C.AvrSettings)
    | ConfiguringCam(p: Progress, cam: Payload)
    | Arming(a: R.ArmState)
    | InShot(s: S.ShotState)
    | KeepingAlive(k: KaState)

  datatype Client = Client(
    queue: seq<Op>, active: Option<Active>, deadline: Option<nat>,
    kaEnabled: bool, kaQueued: bool, lastKa: nat, kaInterval: nat, opTimeout: nat,
    status: Snapshot, device: Option<HandshakeOutcome>, armed: bool, shot: bool)

  const DEFAULT_OP_TIMEOUT: nat := 30000
  const DEFAULT_KEEPALIVE_INTERVAL: nat := 1000
  const KEEPALIVE_TIMEOUT: nat := 3000
  const NO_STATUS: Snapshot := Snapshot(None, None, None)
  const NONE_YET: KaState := KaState(false, false, false)

  function New(now: nat): Client {
    Client([], None, None, false, false, now, DEFAULT_KEEPALIVE_INTERVAL, DEFAULT_OP_TIMEOUT, NO_STATUS, None, false, false)
  }

  // ---- invariant -----------------------------------------------------------------

  predicate Follows(p: Progress, script: seq<Exchange>) { p.script == script && Good(p) }

  predicate Sound(a: Active) {
    match a
    case HsDsp(p) => Follows(p, D.DspScript())
    case HsAvr(p, _) => Follows(p, A.AvrScript())
    case HsPi(p, _, _) => Follows(p, P.PiScript())
    case Disarming(p) => Follows(p, C.DisarmScript())
    case ConfiguringAvr(p, s) => Follows(p, C.AvrConfigScript(s))
    case ConfiguringCam(p, cam) => Follows(p, C.CamScript(cam))
    case Arming(a) => R.ArmGood(a)
    case InShot(s) => s.pending.None?
    case KeepingAlive(_) => true
  }

  predicate Finished(a: Active) {
    match a
    case Arming(a) => a.pos == 4
    case InShot(s) => s.step.ShotDone?
    case KeepingAlive(k) => k.gotDsp && k.gotAvr && k.gotPi
    case _ => Complete(a.p)
  }

  predicate InHandshake(a: Active) { a.HsDsp? || a.HsAvr? || a.HsPi? }

  /** A deadline runs exactly while an operation does, and no operation lingers once finished. */
  predicate WF(c: Client) {
    && (c.active.Some? <==> c.deadline.Some?)
    && (c.active.Some? ==> Sound(c.active.value) && !Finished(c.active.value))
  }

  // ---- starting an operation -------------------------------------------------------

  /** For the record: operations started, and disarms slipped in before a configuration. */
  datatype Entry = Started(op: Op) | DisarmStarted | DisarmDone

  datatype Outcome = Quiet | Emit(event: Event) | TimedOut

  datatype Out = Out(c: Client, sent: seq<Action>, log: seq<Entry>, result: Outcome)

  const KEEPALIVE_POLLS: seq<Action> :=
    [Send(StatusPoll(false), Dsp), Send(StatusPoll(false), Avr), Send(StatusPoll(true), Pi)]

  function Activated(c: Client, a: Active, deadline: nat): Client {
    c.(active := Some(a), deadline := Some(deadline))
  }

  function Start(c: Client, op: Op, now: nat): Out {
    var due := now + if op.Keepalive? then KEEPALIVE_TIMEOUT else c.opTimeout;
    match op
    case Handshake =>
      Out(Activated(c, HsDsp(Begin(D.DspScript())), due), Opening(D.DspScript()), [Started(op)], Quiet)
    case ConfigureAvr(s) =>
      if c.armed then
        Out(Activated(c.(queue := [op] + c.queue), Disarming(Begin(C.DisarmScript())), due),
            Opening(C.DisarmScript()), [DisarmStarted], Quiet)
      else
        Out(Activated(c, ConfiguringAvr(Begin(C.AvrConfigScript(s)), s), due),
            Opening(C.AvrConfigScript(s)), [Started(op)], Quiet)
    case ConfigureCam(cam) =>
      Out(Activated(c, ConfiguringCam(Begin(C.CamScript(cam)), cam), due), Opening(C.CamScript(cam)), [Started(op)], Quiet)
    case Arm => Out(Activated(c, Arming(R.BEGIN), due), [R.POLL_DSP], [Started(op)], Quiet)
    case Keepalive => Out(Activated(c, KeepingAlive(NONE_YET), due), KEEPALIVE_POLLS, [Started(op)], Quiet)
  }

  /** The next queued operation, if the client is idle. */
  function StartNext(c: Client, now: nat): Out {
    if c.active.None? && c.queue != [] then Start(c.(queue := c.queue[1..]), c.queue[0], now) else Out(c, [], [], Quiet)
  }

  // ---- deadlines -------------------------------------------------------------------

  predicate Overdue(c: Client, now: nat) { c.deadline.Some? && now >= c.deadline.value }

  predicate KeepaliveActive(c: Client) { c.active.Some? && c.active.value.KeepingAlive? }

  /** A keepalive that got no answer is dropped. */
  function Lapse(c: Client, now: nat): Client {
    if Overdue(c, now) then c.(active := None, deadline := None, kaQueued := false, lastKa := now) else c
  }

  /** The optional replies and the drain phase have deadlines of their own. */
  function Expiries(c: Client, now: nat): Out {
    if c.active.Some? && c.active.value.HsAvr? then
      var e := Expire(c.active.value.p, now);
      Out(c.(active := Some(HsAvr(e.next, c.active.value.dsp))), e.sends, [], Quiet)
    else if c.active.Some? && c.active.value.InShot? then
      var e := S.ShotExpire(c.active.value.s, now);
      Out(c.(active := Some(InShot(e.next))), e.sends, [], Quiet)
    else Out(c, [], [], Quiet)
  }

  predicate KeepaliveDue(c: Client, now: nat) {
    c.kaEnabled && !c.kaQueued && !c.shot && (if now > c.lastKa then now - c.lastKa else 0) >= c.kaInterval
  }

  function AutoKeepalive(c: Client, now: nat): Client {
    if KeepaliveDue(c, now) then c.(queue := c.queue + [Keepalive], kaQueued := true) else c
  }

  // ---- a message -------------------------------------------------------------------

  predicate IsStatusReply(env: Envelope) {
    (env.message.DspStatus? && env.src == Dsp) || (env.message.AvrStatus? && env.src == Avr)
    || (env.message.PiStatus? && env.src == Pi)
  }

  function CacheStatus(s: Snapshot, env: Envelope): Snapshot {
    if env.message.DspStatus? && env.src == Dsp then s.(dsp := Some(env.message.dsp))
    else if env.message.AvrStatus? && env.src == Avr then s.(avr := Some(env.message.body))
    else if env.message.PiStatus? && env.src == Pi then s.(pi := Some(env.message.body))
    else s
  }

  function KaFeed(k: KaState, env: Envelope): KaState {
    KaState(k.gotDsp || (env.message.DspStatus? && env.src == Dsp),
            k.gotAvr || (env.message.AvrStatus? && env.src == Avr),
            k.gotPi || (env.message.PiStatus? && env.src == Pi))
  }

  datatype Signal = Consumed | Intermediate(datum: S.ShotDatum) | PhaseComplete | Done

  datatype Fed = Fed(a: Active, sends: seq<Action>, signal: Signal)

  function SignalOf(a: Active): Signal {
    if !Finished(a) then Consumed else if InHandshake(a) then PhaseComplete else Done
  }

  function FeedScripted(a: Active, env: Envelope, now: nat): Fed
    requires a.HsDsp? || a.HsAvr? || a.HsPi? || a.Disarming? || a.ConfiguringAvr? || a.ConfiguringCam?
  {
    var f := Feed(a.p, env, now);
    var next := a.(p := f.next);
    Fed(next, f.sends, SignalOf(next))
  }

  function FeedShot(s: S.ShotState, env: Envelope, now: nat): Fed {
    var f := S.ShotFeed(s, env, now);
    if f.next.step.ShotDone? then Fed(InShot(f.next), f.sends, Done)
    else Fed(InShot(f.next.(pending := None)), f.sends,
             if f.next.pending.Some? then Intermediate(f.next.pending.value) else Consumed)
  }

  function FeedOp(a: Active, env: Envelope, now: nat): Fed {
    match a
    case Arming(r) => var f := R.ArmFeed(r, env); Fed(Arming(f.next), f.sends, SignalOf(Arming(f.next)))
    case InShot(s) => FeedShot(s, env, now)
    case KeepingAlive(k) => Fed(KeepingAlive(KaFeed(k, env)), [], SignalOf(KeepingAlive(KaFeed(k, env))))
    case _ => FeedScripted(a, env, now)
  }

  /** The phase just finished gives way to the next one, or to the handshake's outcome. */
  function AdvancePhase(c: Client, now: nat): Out
    requires c.active.Some? && Sound(c.active.value) && Finished(c.active.value) && InHandshake(c.active.value)
  {
    match c.active.value
    case HsDsp(p) =>
      Out(Activated(c, HsAvr(Begin(A.AvrScript()), D.DspResult(p)), now + c.opTimeout), Opening(A.AvrScript()), [], Quiet)
    case HsAvr(p, dsp) =>
      Out(Activated(c, HsPi(Begin(P.PiScript()), dsp, A.AvrResult(p)), now + c.opTimeout), Opening(P.PiScript()), [], Quiet)
    case HsPi(p, dsp, avr) =>
      var outcome := HandshakeOutcome(dsp, avr, P.PiResult(p));
      Out(c.(active := None, deadline := None, device := Some(outcome), armed := c.armed || dsp.status.state == 6),
          [], [], Emit(HandshakeDone(outcome)))
  }

  function FinishOp(c: Client, now: nat): Out
    requires c.active.Some? && !InHandshake(c.active.value)
  {
    var idle := c.(active := None, deadline := None);
    match c.active.value
    case Disarming(_) => Out(idle.(armed := false, kaEnabled := false), [], [DisarmDone], Emit(Disarmed))
    case ConfiguringAvr(_, _) => Out(idle, [], [], Emit(Configured))
    case ConfiguringCam(_, _) => Out(idle, [], [], Emit(Configured))
    case Arming(_) => Out(idle.(armed := true, kaEnabled := true, lastKa := now), [], [], Emit(Armed))
    case InShot(s) => Out(idle.(armed := true, shot := false, lastKa := now), [], [], Emit(ShotComplete(s.data)))
    case KeepingAlive(_) =>
      var o := StartNext(idle.(kaQueued := false, lastKa := now), now);
      o.(result := Emit(KeepaliveDone(c.status)))
  }

  /** What the operation's signal leads to. */
  function Conclude(c: Client, signal: Signal, now: nat): Out
    requires c.active.Some? && (signal.Done? ==> !InHandshake(c.active.value))
    requires signal.PhaseComplete? ==> Sound(c.active.value) && Finished(c.active.value) && InHandshake(c.active.value)
  {
    match signal
    case Consumed => Out(c, [], [], Quiet)
    case Intermediate(d) => Out(c, [], [], Emit(Datum(d)))
    case PhaseComplete => AdvancePhase(c, now)
    case Done => FinishOp(c, now)
  }

  /** The active operation takes the message. */
  function Consume(c: Client, env: Envelope, now: nat): Out
    requires c.active.Some? && WF(c)
  {
    var f := FeedOp(c.active.value, env, now);
    FeedKeepsSound(c.active.value, env, now);
    var o := Conclude(c.(active := Some(f.a)), f.signal, now);
    o.(sent := f.sends + o.sent)
  }

  /** Nobody takes the message: shot detection, early shot data, or handing it to the caller. */
  function Detect(c: Client, env: Envelope, now: nat): Out {
    var m := env.message;
    if SaysTrigger(m) then Out(c.(shot := true, armed := false), [], [], Emit(Trigger))
    else if SaysProcessed(m) then
      Out(Activated(c.(kaQueued := false), InShot(S.BEGIN), now + c.opTimeout), [S.ACK, S.ACK], [], Quiet)
    else if c.shot && m.FlightResultV1? then Out(c, [], [], Emit(Datum(S.FlightV1(m.body))))
    else Out(c, [], [], Emit(Passed(env)))
  }

  /** A keepalive in flight takes status replies only. */
  predicate Takes(c: Client, env: Envelope) {
    c.active.Some? && (c.active.value.KeepingAlive? ==> IsStatusReply(env))
  }

  function Deliver(c: Client, env: Envelope, now: nat): Out
    requires WF(c)
  {
    var c' := c.(status := CacheStatus(c.status, env));
    if Takes(c, env) then Consume(c', env, now) else Detect(c', env, now)
  }

  // ---- one poll ----------------------------------------------------------------------

  /** Starts the next operation if idle, acts on expired replies and drains, queues a keepalive if due. */
  function Prepare(c: Client, now: nat): Out {
    var o := StartNext(c, now);
    var e := Expiries(o.c, now);
    Out(AutoKeepalive(e.c, now), o.sent + e.sent, o.log, Quiet)
  }

  /** Everything a poll does before it reads the socket. */
  function BeforeRecv(c: Client, now: nat): Out { Prepare(Lapse(c, now), now) }

  function Poll(c: Client, tick: Tick): Out
    requires WF(c)
  {
    if Overdue(c, tick.now) && !KeepaliveActive(c) then Out(c, [], [], TimedOut)
    else
      BeforeRecvKeepsWF(c, tick.now);
      var b := BeforeRecv(c, tick.now);
      if tick.env.None? then b
      else
        var d := Deliver(b.c, tick.env.value, tick.now);
        Out(d.c, b.sent + d.sent, b.log + d.log, d.result)
  }

  // ---- the invariant is kept -----------------------------------------------------------

  lemma BeginFollows(script: seq<Exchange>)
    requires Startable(script)
    ensures Follows(Begin(script), script) && !Complete(Begin(script))
  {}

  lemma ScriptsStartable(s: C.AvrSettings, cam: Payload)
    ensures Startable(D.DspScript()) && Startable(A.AvrScript()) && Startable(P.PiScript())
    ensures Startable(C.DisarmScript()) && Startable(C.AvrConfigScript(s)) && Startable(C.CamScript(cam))
  {}

  lemma StartKeepsWF(c: Client, op: Op, now: nat)
    ensures WF(Start(c, op, now).c)
  {
    hide Begin, Good, Complete, Startable, Opening, C.DisarmScript, C.AvrConfigScript, C.CamScript, D.DspScript;
    match op
    case ConfigureAvr(s) =>
      ScriptsStartable(s, []);
      BeginFollows(C.DisarmScript());
      BeginFollows(C.AvrConfigScript(s));
    case ConfigureCam(cam) =>
      ScriptsStartable(C.AvrSettings(0, [], None), cam);
      BeginFollows(C.CamScript(cam));
    case _ =>
      ScriptsStartable(C.AvrSettings(0, [], None), []);
      BeginFollows(D.DspScript());
  }

  lemma FeedKeepsSound(a: Active, env: Envelope, now: nat)
    requires Sound(a) && !Finished(a)
    ensures var f := FeedOp(a, env, now);
            && Sound(f.a)
            && (f.signal.PhaseComplete? <==> Finished(f.a) && InHandshake(f.a))
            && (f.signal.Done? <==> Finished(f.a) && !InHandshake(f.a))
            && (InHandshake(f.a) <==> InHandshake(a))
            && (f.signal.Intermediate? ==> a.InShot?)
  {
    hide SaysArmed, SaysIdle, Good, Feed, R.ArmFeed, S.Collect;
    match a
    case Arming(r) => ArmFeedGood(r, env);
    case InShot(s) =>
    case KeepingAlive(k) =>
    case _ => FeedKeepsGood(a.p, env, now);
  }

  lemma ArmFeedGood(r: R.ArmState, env: Envelope)
    requires R.ArmGood(r)
    ensures R.ArmGood(R.ArmFeed(r, env).next)
  {}

  lemma ExpiriesKeepWF(c: Client, now: nat)
    requires WF(c)
    ensures WF(Expiries(c, now).c)
  {
    hide Good, Expire;
    if c.active.Some? && c.active.value.HsAvr? {
      var p := c.active.value.p;
      ExpireKeepsGood(p, now);
      ExpireNotLast(p, now);
    }
  }

  /** The last exchange of the AVR phase is not optional, so a timeout never completes it. */
  lemma ExpireNotLast(p: Progress, now: nat)
    requires Follows(p, A.AvrScript()) && !Complete(p)
    ensures !Complete(Expire(p, now).next)
  {}

  lemma BeforeRecvKeepsWF(c: Client, now: nat)
    requires WF(c)
    ensures WF(BeforeRecv(c, now).c)
  {
    hide Sound, Finished, Start, Expiries;
    var l := Lapse(c, now);
    if l.active.None? && l.queue != [] { StartKeepsWF(l.(queue := l.queue[1..]), l.queue[0], now); }
    ExpiriesKeepWF(StartNext(l, now).c, now);
  }

  lemma AdvanceKeepsWF(c: Client, now: nat)
    requires c.active.Some? && Sound(c.active.value) && Finished(c.active.value) && InHandshake(c.active.value)
    ensures WF(AdvancePhase(c, now).c)
  {
    hide Begin, Good, Complete, Startable, Opening, A.AvrScript, P.PiScript, D.DspScript, D.DspResult, A.AvrResult, P.PiResult;
    ScriptsStartable(C.AvrSettings(0, [], None), []);
    BeginFollows(A.AvrScript());
    BeginFollows(P.PiScript());
  }

  lemma DeliverKeepsWF(c: Client, env: Envelope, now: nat)
    requires WF(c)
    ensures WF(Deliver(c, env, now).c)
  {
    hide Sound, Finished, Consume, SaysTrigger, SaysProcessed;
    var c' := c.(status := CacheStatus(c.status, env));
    if Takes(c, env) { ConsumeKeepsWF(c', env, now); } else { ShotIsLive(); }
  }

  lemma ConsumeKeepsWF(c: Client, env: Envelope, now: nat)
    requires WF(c) && c.active.Some?
    ensures WF(Consume(c, env, now).c)
  {
    hide Sound, Finished, Start, FeedOp, AdvancePhase;
    var f := FeedOp(c.active.value, env, now);
    FeedKeepsSound(c.active.value, env, now);
    var d := c.(active := Some(f.a));
    if f.signal.PhaseComplete? { AdvanceKeepsWF(d, now); }
    if f.signal.Done? && d.queue != [] {
      var idle := d.(active := None, deadline := None, kaQueued := false, lastKa := now);
      StartKeepsWF(idle.(queue := idle.queue[1..]), idle.queue[0], now);
    }
  }

  lemma ShotIsLive()
    ensures Sound(InShot(S.BEGIN)) && !Finished(InShot(S.BEGIN))
  {}

  lemma PollKeepsWF(c: Client, tick: Tick)
    requires WF(c)
    ensures WF(Poll(c, tick).c)
  {
    hide WF, BeforeRecv, Deliver;
    BeforeRecvKeepsWF(c, tick.now);
    if tick.env.Some? { DeliverKeepsWF(BeforeRecv(c, tick.now).c, tick.env.value, tick.now); }
  }
}
