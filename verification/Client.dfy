/** `BinaryClient` and its keepalive collector (src/client.rs). */
module Client {
  import opened Prelude
  import opened Wire
  import opened Protocol
  import Script
  import opened ClientSpec
  import D = DspSeq
  import A = AvrSeq
  import P = PiSeq
  import C = ConfigSeq
  import R = ArmSeq
  import S = ShotSeq

  class KeepaliveSequencer {
    var gotDsp: bool
    var gotAvr: bool
    var gotPi: bool

    ghost function Abs(): KaState
      reads this
    {
      KaState(gotDsp, gotAvr, gotPi)
    }

    constructor ()
      ensures Abs() == NONE_YET
    {
      gotDsp, gotAvr, gotPi := false, false, false;
    }

    method FeedMessage(env: Envelope)
      modifies this
      ensures Abs() == KaFeed(old(Abs()), env)
    {
      if env.message.DspStatus? && env.src == Dsp {
        gotDsp := true;
      } else if env.message.AvrStatus? && env.src == Avr {
        gotAvr := true;
      } else if env.message.PiStatus? && env.src == Pi {
        gotPi := true;
      }
    }

    predicate IsComplete()
      reads this
    {
      gotDsp && gotAvr && gotPi
    }
  }

  datatype HandshakePhase = DspPhase(d: D.DspSequencer) | AvrPhase(a: A.AvrSequencer) | PiPhase(p: P.PiSequencer)

  datatype ConfigurePhase = AvrConfig(c: C.AvrConfigSequencer) | CamConfig(k: C.CameraConfigSequencer)

  datatype ActiveOp =
    | HandshakeOp(phase: HandshakePhase, dsp: Option<D.DspSync>, avr: Option<A.AvrSync>)
    | DisarmOp(d: C.DisarmSequencer)
    | ConfigureOp(config: ConfigurePhase)
    | ArmOp(r: R.ArmSequencer)
    | ShotOp(s: S.ShotSequencer)
    | KeepaliveOp(k: KeepaliveSequencer)
  {
    function Obj(): object {
      match this
      case HandshakeOp(DspPhase(d), _, _) => d
      case HandshakeOp(AvrPhase(a), _, _) => a
      case HandshakeOp(PiPhase(p), _, _) => p
      case DisarmOp(d) => d
      case ConfigureOp(AvrConfig(c)) => c
      case ConfigureOp(CamConfig(k)) => k
      case ArmOp(r) => r
      case ShotOp(s) => s
      case KeepaliveOp(k) => k
    }

    /** The results of the earlier phases are there, whichever phase is under way. */
    ghost predicate Valid()
      reads Obj()
    {
      match this
      case HandshakeOp(DspPhase(d), dsp, avr) => d.Valid()
      case HandshakeOp(AvrPhase(a), dsp, avr) => a.Valid() && dsp.Some?
      case HandshakeOp(PiPhase(p), dsp, avr) => p.Valid() && dsp.Some? && avr.Some?
      case DisarmOp(d) => d.Valid()
      case ConfigureOp(AvrConfig(c)) => c.Valid()
      case ConfigureOp(CamConfig(k)) => k.Valid()
      case ArmOp(r) => r.Valid()
      case ShotOp(s) => true
      case KeepaliveOp(k) => true
    }

    ghost function Abs(): Active
      requires Valid()
      reads Obj()
    {
      match this
      case HandshakeOp(DspPhase(d), dsp, avr) => HsDsp(d.Abs())
      case HandshakeOp(AvrPhase(a), dsp, avr) => HsAvr(a.Abs(), dsp.value)
      case HandshakeOp(PiPhase(p), dsp, avr) => HsPi(p.Abs(), dsp.value, avr.value)
      case DisarmOp(d) => Disarming(d.Abs())
      case ConfigureOp(AvrConfig(c)) => ConfiguringAvr(c.Abs(), c.settings)
      case ConfigureOp(CamConfig(k)) => ConfiguringCam(k.Abs(), k.cam)
      case ArmOp(r) => Arming(r.Abs())
      case ShotOp(s) => InShot(s.Abs())
      case KeepaliveOp(k) => KeepingAlive(k.Abs())
    }
  }

  method FeedHandshake(phase: HandshakePhase, ghost op: ActiveOp, env: Envelope, now: nat) returns (actions: seq<Action>, complete: bool)
    requires op.HandshakeOp? && op.phase == phase && op.Valid() && Sound(op.Abs())
    modifies op.Obj()
    ensures op.Valid()
    ensures var f := FeedScripted(old(op.Abs()), env, now);
            op.Abs() == f.a && actions == f.sends && (complete <==> Finished(f.a))
  {
    hide Script.Feed, D.DspScript, A.AvrScript, P.PiScript, Script.Good, Script.Begin, D.Kept, A.Kept, P.SplitAtNul, A.CalIn, Sound;
    match phase
    case DspPhase(d) =>
      actions := d.FeedMessage(env, now);
      complete := d.IsComplete();
    case AvrPhase(a) =>
      actions := a.FeedMessage(env, now);
      complete := a.IsComplete();
    case PiPhase(p) =>
      actions := p.FeedMessage(env, now);
      complete := p.IsComplete();
  }

  method FeedConfigure(config: ConfigurePhase, ghost op: ActiveOp, env: Envelope, now: nat) returns (actions: seq<Action>, complete: bool)
    requires op.ConfigureOp? && op.config == config && op.Valid() && Sound(op.Abs())
    modifies op.Obj()
    ensures op.Valid()
    ensures var f := FeedScripted(old(op.Abs()), env, now);
            op.Abs() == f.a && actions == f.sends && (complete <==> Finished(f.a))
  {
    hide Script.Feed, C.AvrConfigScript, C.CamScript, Script.Good;
    match config
    case AvrConfig(c) =>
      actions := c.FeedMessage(env, now);
      complete := ConfigComplete(c);
    case CamConfig(k) =>
      actions := k.FeedMessage(env, now);
      complete := k.IsComplete();
  }

  method ConfigComplete(c: C.AvrConfigSequencer) returns (b: bool)
    requires c.Valid()
    ensures b == Script.Complete(c.Abs())
  {
    b := c.IsComplete();
  }

  method FeedShotOp(s: S.ShotSequencer, env: Envelope, now: nat) returns (actions: seq<Action>, signal: Signal)
    modifies s
    ensures Fed(InShot(s.Abs()), actions, signal) == FeedShot(old(s.Abs()), env, now)
  {
    hide S.ShotFeed;
    actions := s.FeedMessage(env, now);
    if s.IsComplete() { return actions, Done; }
    var datum := s.TakePending();
    return actions, if datum.Some? then Intermediate(datum.value) else Consumed;
  }

  /** Feeds the message to the active operation and sends its answers. */
  method FeedActive(active: ActiveOp, env: Envelope, conn: Connection, now: nat) returns (signal: Signal)
    requires active.Valid() && Sound(active.Abs()) && active.Obj() != conn
    modifies active.Obj(), conn
    ensures active.Valid()
    ensures var f := FeedOp(old(active.Abs()), env, now);
            active.Abs() == f.a && signal == f.signal && conn.sent == old(conn.sent) + f.sends
  {
    hide Script.Feed, R.ArmFeed, S.ShotFeed, Sound, KaFeed;
    match active
    case HandshakeOp(phase, _, _) =>
      var actions, complete := FeedHandshake(phase, active, env, now);
      conn.SendAll(actions);
      return if complete then PhaseComplete else Consumed;
    case DisarmOp(d) =>
      var actions := d.FeedMessage(env, now);
      conn.SendAll(actions);
      return if d.IsComplete() then Done else Consumed;
    case ConfigureOp(config) =>
      var actions, complete := FeedConfigure(config, active, env, now);
      conn.SendAll(actions);
      return if complete then Done else Consumed;
    case ArmOp(r) =>
      var actions := r.FeedMessage(env);
      conn.SendAll(actions);
      return if r.IsComplete() then Done else Consumed;
    case ShotOp(s) =>
      var actions;
      actions, signal := FeedShotOp(s, env, now);
      conn.SendAll(actions);
    case KeepaliveOp(k) =>
      k.FeedMessage(env);
      conn.SendAll([]);
      return if k.IsComplete() then Done else Consumed;
  }

  /** Each sequencer's initial actions are the opening of its script. */
  lemma FirstSends()
    ensures Script.Opening(D.DspScript()) == D.DspSequencer.InitialActions()
    ensures Script.Opening(A.AvrScript()) == A.AvrSequencer.InitialActions()
    ensures Script.Opening(P.PiScript()) == P.PiSequencer.InitialActions()
    ensures Script.Opening(C.DisarmScript()) == C.DisarmSequencer.InitialActions()
  {}

  lemma ConfigFirstSend(s: C.AvrSettings)
    ensures Script.Opening(C.AvrConfigScript(s)) == C.AvrConfigSequencer.InitialActions()
  {}

  lemma CamFirstSend(cam: Payload)
    ensures Script.Opening(C.CamScript(cam)) == C.CameraConfigSequencer.InitialActions(cam)
  {}

  lemma StartSetsDeadline(c: Client, op: Op, now: nat, deadline: Option<nat>)
    ensures Start(c.(deadline := deadline), op, now) == Start(c, op, now)
  {
    hide Script.Begin, Script.Opening;
  }

  lemma LiveParts(c: Client)
    requires WF(c) && c.active.Some?
    ensures Sound(c.active.value) && !Finished(c.active.value)
  {}

  lemma StatusIrrelevant(c: Client, d: Client)
    requires WF(c) && d == c.(status := d.status)
    ensures WF(d)
  {}

  class BinaryClient {
    const conn: Connection
    var queue: seq<Op>
    var active: Option<ActiveOp>
    var opDeadline: Option<nat>
    var keepaliveEnabled: bool
    var keepaliveQueued: bool
    var lastKeepalive: nat
    var keepaliveInterval: nat
    var opTimeout: nat
    var status: Snapshot
    var device: Option<HandshakeOutcome>
    var armed: bool
    var shotInProgress: bool

    ghost function Repr(): set<object>
      reads this
    {
      {this, conn} + if active.Some? then {active.value.Obj()} else {}
    }

    /** The active operation is well-formed and an object of its own. */
    ghost predicate Held()
      reads this, Repr()
    {
      active.Some? ==> active.value.Valid() && active.value.Obj() != conn && active.value.Obj() != this
    }

    ghost function Abs(): Client
      requires Held()
      reads this, Repr()
    {
      Client(queue, if active.Some? then Some(active.value.Abs()) else None, opDeadline,
             keepaliveEnabled, keepaliveQueued, lastKeepalive, keepaliveInterval, opTimeout,
             status, device, armed, shotInProgress)
    }

    ghost predicate Valid()
      reads this, Repr()
    {
      Held() && WF(Abs())
    }

    constructor (conn: Connection, now: nat)
      ensures Valid() && this.conn == conn && Abs() == New(now)
    {
      this.conn := conn;
      queue, active, opDeadline := [], None, None;
      keepaliveEnabled, keepaliveQueued, lastKeepalive := false, false, now;
      keepaliveInterval, opTimeout := DEFAULT_KEEPALIVE_INTERVAL, DEFAULT_OP_TIMEOUT;
      status, device, armed, shotInProgress := NO_STATUS, None, false, false;
    }

    method Enqueue(op: Op)
      requires Valid()
      modifies this`queue
      ensures Valid() && Abs() == old(Abs()).(queue := old(queue) + [op])
    {
      queue := queue + [op];
    }

    method StartOp(op: Op, now: nat)
      requires active.None?
      modifies this, conn
      ensures Held() && fresh(Repr() - {this, conn})
      ensures var o := Start(old(Abs()), op, now); Abs() == o.c && conn.sent == old(conn.sent) + o.sent
    {
      hide Start, ActiveOp.Valid, ActiveOp.Abs;
      ghost var c0 := Abs();
      opDeadline := Some(now + if op.Keepalive? then KEEPALIVE_TIMEOUT else opTimeout);
      StartSetsDeadline(c0, op, now, opDeadline);
      match op
      case Handshake => StartHandshake(op, now);
      case ConfigureAvr(settings) => StartConfigure(op, now);
      case ConfigureCam(cam) => StartCamera(op, now);
      case Arm => StartArm(op, now);
      case Keepalive => StartKeepalive(op, now);
    }

    method StartHandshake(op: Op, now: nat)
      requires active.None? && op.Handshake? && opDeadline == Some(now + opTimeout)
      modifies this, conn
      ensures Held() && fresh(Repr() - {this, conn})
      ensures var o := Start(old(Abs()), op, now); Abs() == o.c && conn.sent == old(conn.sent) + o.sent
    {
      hide D.DspScript, Script.Opening;
      FirstSends();
      var seq_ := new D.DspSequencer();
      conn.SendAll(D.DspSequencer.InitialActions());
      active := Some(HandshakeOp(DspPhase(seq_), None, None));
    }

    method StartArm(op: Op, now: nat)
      requires active.None? && op.Arm? && opDeadline == Some(now + opTimeout)
      modifies this, conn
      ensures Held() && fresh(Repr() - {this, conn})
      ensures var o := Start(old(Abs()), op, now); Abs() == o.c && conn.sent == old(conn.sent) + o.sent
    {
      var seq_ := new R.ArmSequencer();
      conn.SendAll(R.ArmSequencer.InitialActions());
      active := Some(ArmOp(seq_));
    }

    method StartKeepalive(op: Op, now: nat)
      requires active.None? && op.Keepalive? && opDeadline == Some(now + KEEPALIVE_TIMEOUT)
      modifies this, conn
      ensures Held() && fresh(Repr() - {this, conn})
      ensures var o := Start(old(Abs()), op, now); Abs() == o.c && conn.sent == old(conn.sent) + o.sent
    {
      var seq_ := new KeepaliveSequencer();
      conn.SendAll(KEEPALIVE_POLLS);
      active := Some(KeepaliveOp(seq_));
    }

    /** Armed: put the configuration back at the head and disarm first. */
    method StartConfigure(op: Op, now: nat)
      requires active.None? && op.ConfigureAvr? && opDeadline == Some(now + opTimeout)
      modifies this, conn
      ensures Held() && fresh(Repr() - {this, conn})
      ensures var o := Start(old(Abs()), op, now); Abs() == o.c && conn.sent == old(conn.sent) + o.sent
    {
      hide C.DisarmScript, C.AvrConfigScript, Script.Opening, Script.Begin;
      FirstSends();
      if armed {
        queue := [op] + queue;
        var seq_ := new C.DisarmSequencer();
        conn.SendAll(C.DisarmSequencer.InitialActions());
        active := Some(DisarmOp(seq_));
      } else {
        var seq_ := new C.AvrConfigSequencer(op.settings);
        conn.SendAll(C.AvrConfigSequencer.InitialActions());
        ConfigFirstSend(op.settings);
        active := Some(ConfigureOp(AvrConfig(seq_)));
      }
    }

    method StartCamera(op: Op, now: nat)
      requires active.None? && op.ConfigureCam? && opDeadline == Some(now + opTimeout)
      modifies this, conn
      ensures Held() && fresh(Repr() - {this, conn})
      ensures var o := Start(old(Abs()), op, now); Abs() == o.c && conn.sent == old(conn.sent) + o.sent
    {
      hide C.CamScript, Script.Opening;
      var seq_ := new C.CameraConfigSequencer(op.cam);
      conn.SendAll(C.CameraConfigSequencer.InitialActions(op.cam));
      CamFirstSend(op.cam);
      active := Some(ConfigureOp(ConfigurePhase.CamConfig(seq_)));
    }

    /** The next queued operation, if idle. */
    method StartQueued(now: nat)
      requires Held()
      modifies this, conn
      ensures Held() && fresh(Repr() - old(Repr()))
      ensures var o := StartNext(old(Abs()), now); Abs() == o.c && conn.sent == old(conn.sent) + o.sent
    {
      hide Start;
      if active.None? && queue != [] {
        var queued := queue[0];
        queue := queue[1..];
        StartOp(queued, now);
      } else {
        conn.SendAll([]);
      }
    }

    /** Steps 3 and 3b of a poll: the deadlines inside the active operation. */
    method CheckTimeouts(now: nat)
      requires Held()
      modifies Repr()
      ensures Held() && Repr() == old(Repr())
      ensures var o := Expiries(old(Abs()), now); Abs() == o.c && conn.sent == old(conn.sent) + o.sent
    {
      hide Script.Expire, S.ShotExpire, A.AvrScript;
      var actions: seq<Action> := [];
      if active.Some? {
        match active.value
        case HandshakeOp(AvrPhase(avr), _, _) => actions := avr.CheckCalTimeout(now);
        case ShotOp(shot) => actions := shot.CheckDrainTimeout(now);
        case _ =>
      }
      conn.SendAll(actions);
    }

    /** The finished phase gives way to the next one, or completes the handshake. */
    method AdvanceOp(now: nat) returns (r: Outcome)
      requires Held() && active.Some? && Sound(active.value.Abs()) && Finished(active.value.Abs())
      requires active.value.HandshakeOp?
      modifies this, conn
      ensures Held() && fresh(Repr() - old(Repr()))
      ensures var o := AdvancePhase(old(Abs()), now);
              Abs() == o.c && conn.sent == old(conn.sent) + o.sent && r == o.result
    {
      hide D.DspScript, A.AvrScript, P.PiScript, Script.Opening, Script.Good, Script.Begin, D.DspResult, A.AvrResult, P.PiResult;
      match active.value.phase
      case DspPhase(d) =>
        EnterAvr(d, now);
        r := Quiet;
      case AvrPhase(a) =>
        EnterPi(a, now);
        r := Quiet;
      case PiPhase(p) => r := CompleteHandshake(p, now);
    }

    method EnterAvr(d: D.DspSequencer, now: nat)
      requires Held() && active.Some? && active.value.HandshakeOp? && active.value.phase == DspPhase(d) && d.IsComplete()
      modifies this, conn
      ensures Held() && fresh(Repr() - old(Repr()))
      ensures Abs() == Activated(old(Abs()), HsAvr(Script.Begin(A.AvrScript()), D.DspResult(old(d.Abs()))), now + opTimeout)
      ensures conn.sent == old(conn.sent) + Script.Opening(A.AvrScript())
    {
      hide D.DspScript, A.AvrScript, Script.Opening, Script.Good, Script.Begin, D.DspResult;
      hide C.DisarmSequencer.Valid, C.AvrConfigSequencer.Valid, C.CameraConfigSequencer.Valid, R.ArmSequencer.Valid;
      hide P.PiSequencer.Valid, P.PiSequencer.Abs, A.AvrSequencer.Valid, A.AvrSequencer.Abs, D.DspSequencer.Valid;
      FirstSends();
      var op := active.value;
      var dspResult := d.IntoResult();
      var avrSeq := new A.AvrSequencer();
      conn.SendAll(A.AvrSequencer.InitialActions());
      opDeadline := Some(now + opTimeout);
      active := Some(HandshakeOp(AvrPhase(avrSeq), Some(dspResult), op.avr));
    }

    method EnterPi(a: A.AvrSequencer, now: nat)
      requires Held() && active.Some? && active.value.HandshakeOp? && active.value.phase == AvrPhase(a) && a.IsComplete()
      modifies this, conn
      ensures Held() && fresh(Repr() - old(Repr()))
      ensures var next := HsPi(Script.Begin(P.PiScript()), old(active.value.dsp.value), A.AvrResult(old(a.Abs())));
              Abs() == Activated(old(Abs()), next, now + opTimeout)
      ensures conn.sent == old(conn.sent) + Script.Opening(P.PiScript())
    {
      hide A.AvrScript, P.PiScript, Script.Opening, Script.Good, Script.Begin, A.AvrResult;
      hide D.DspSequencer.Valid, C.DisarmSequencer.Valid, C.AvrConfigSequencer.Valid, C.CameraConfigSequencer.Valid;
      hide P.PiSequencer.Valid, P.PiSequencer.Abs, A.AvrSequencer.Valid, A.AvrSequencer.Abs, R.ArmSequencer.Valid;
      FirstSends();
      var op := active.value;
      var avrResult := a.IntoResult();
      var piSeq := new P.PiSequencer();
      conn.SendAll(P.PiSequencer.InitialActions());
      opDeadline := Some(now + opTimeout);
      active := Some(HandshakeOp(PiPhase(piSeq), op.dsp, Some(avrResult)));
    }

    method CompleteHandshake(p: P.PiSequencer, now: nat) returns (r: Outcome)
      requires Held() && active.Some? && active.value.HandshakeOp? && active.value.phase == PiPhase(p) && p.IsComplete()
      modifies this, conn
      ensures Held() && Repr() == {this, conn} && conn.sent == old(conn.sent) + []
      ensures var outcome := HandshakeOutcome(old(active.value.dsp.value), old(active.value.avr.value), P.PiResult(old(p.Abs())));
              && r == Emit(HandshakeDone(outcome))
              && Abs() == old(Abs()).(active := None, deadline := None, device := Some(outcome),
                                      armed := old(armed) || outcome.dsp.status.state == 6)
    {
      hide P.PiScript, P.PiResult;
      var op := active.value;
      var piResult := p.IntoResult();
      var outcome := HandshakeOutcome(op.dsp.value, op.avr.value, piResult);
      if outcome.dsp.status.state == 6 { armed := true; }
      device := Some(outcome);
      active := None;
      opDeadline := None;
      conn.SendAll([]);
      return Emit(HandshakeDone(outcome));
    }

    method Finish(now: nat) returns (r: Outcome)
      requires Held() && active.Some? && !active.value.HandshakeOp?
      modifies this, conn
      ensures Held() && fresh(Repr() - old(Repr()))
      ensures var o := FinishOp(old(Abs()), now);
              Abs() == o.c && conn.sent == old(conn.sent) + o.sent && r == o.result
    {
      hide StartNext;
      if active.value.KeepaliveOp? {
        r := FinishKeepalive(now);
      } else {
        r := FinishUserOp(now);
      }
    }

    /** The next queued operation starts at once. */
    method FinishKeepalive(now: nat) returns (r: Outcome)
      requires Held() && active.Some? && active.value.KeepaliveOp?
      modifies this, conn
      ensures Held() && fresh(Repr() - old(Repr()))
      ensures var o := FinishOp(old(Abs()), now);
              Abs() == o.c && conn.sent == old(conn.sent) + o.sent && r == o.result
    {
      hide StartNext, ActiveOp.Valid;
      active := None;
      opDeadline := None;
      keepaliveQueued := false;
      lastKeepalive := now;
      var snapshot := status;
      StartQueued(now);
      return Emit(KeepaliveDone(snapshot));
    }

    method FinishUserOp(now: nat) returns (r: Outcome)
      requires Held() && active.Some? && !active.value.HandshakeOp? && !active.value.KeepaliveOp?
      modifies this, conn
      ensures Repr() == {this, conn} && Held()
      ensures var o := FinishOp(old(Abs()), now);
              Abs() == o.c && conn.sent == old(conn.sent) + o.sent && r == o.result
    {
      hide StartNext, D.DspSequencer.Valid, A.AvrSequencer.Valid, P.PiSequencer.Valid;
      hide C.DisarmSequencer.Valid, C.AvrConfigSequencer.Valid, C.CameraConfigSequencer.Valid, R.ArmSequencer.Valid;
      hide D.DspSequencer.Abs, A.AvrSequencer.Abs, P.PiSequencer.Abs, C.DisarmSequencer.Abs;
      hide C.AvrConfigSequencer.Abs, C.CameraConfigSequencer.Abs, R.ArmSequencer.Abs;
      var op := active.value;
      active := None;
      opDeadline := None;
      conn.SendAll([]);
      match op
      case DisarmOp(_) =>
        armed := false;
        keepaliveEnabled := false;
        return Emit(Disarmed);
      case ConfigureOp(_) => return Emit(Configured);
      case ArmOp(_) =>
        armed := true;
        keepaliveEnabled := true;
        lastKeepalive := now;
        return Emit(Armed);
      case ShotOp(s) =>
        armed := true;
        shotInProgress := false;
        lastKeepalive := now;
        var data := s.IntoResult();
        return Emit(ShotComplete(data));
    }

    /** Takes over from whatever keepalive is in flight. */
    method BeginShot(now: nat)
      modifies this, conn
      requires Held()
      ensures Held() && fresh(Repr() - old(Repr())) && conn.sent == old(conn.sent) + [S.ACK, S.ACK]
      ensures Abs() == Activated(old(Abs()).(kaQueued := false), InShot(S.BEGIN), now + opTimeout)
    {
      var seq_ := new S.ShotSequencer();
      conn.SendAll(S.ShotSequencer.InitialActions());
      keepaliveQueued := false;
      active := Some(ShotOp(seq_));
      opDeadline := Some(now + opTimeout);
    }

    /** Steps 9 to 11 of a poll: nobody took the message. */
    method DetectShot(env: Envelope, now: nat) returns (r: Outcome)
      requires Held()
      modifies this, conn
      ensures Held() && fresh(Repr() - old(Repr()))
      ensures var o := Detect(old(Abs()), env, now);
              Abs() == o.c && conn.sent == old(conn.sent) + o.sent && r == o.result
    {
      hide SaysTrigger, SaysProcessed;
      if SaysTrigger(env.message) {
        shotInProgress := true;
        armed := false;
        conn.SendAll([]);
        return Emit(Trigger);
      }
      if SaysProcessed(env.message) {
        BeginShot(now);
        return Quiet;
      }
      conn.SendAll([]);
      if shotInProgress && env.message.FlightResultV1? { return Emit(Datum(S.FlightV1(env.message.body))); }
      return Emit(Passed(env));
    }

    /** Step 7: the active operation takes the message. */
    method FeedAndAdvance(env: Envelope, now: nat) returns (r: Outcome)
      requires Valid() && active.Some?
      modifies Repr()
      ensures Held() && fresh(Repr() - old(Repr()))
      ensures var o := Consume(old(Abs()), env, now);
              Abs() == o.c && conn.sent == old(conn.sent) + o.sent && r == o.result
    {
      hide FeedOp, Sound, Finished, Conclude, WF;
      ghost var c0, sent0 := Abs(), conn.sent;
      assert Sound(c0.active.value) && !Finished(c0.active.value) by { LiveParts(c0); }
      FeedKeepsSound(c0.active.value, env, now);
      var signal := FeedActive(active.value, env, conn, now);
      ghost var c1, f := Abs(), FeedOp(c0.active.value, env, now);
      assert c1 == c0.(active := Some(f.a));
      r := ActOn(signal, now);
      Associative(sent0, f.sends, Conclude(c1, f.signal, now).sent);
    }

    /** The phase is over, or the operation, or the caller is told of a datum, or nothing. */
    method ActOn(signal: Signal, now: nat) returns (r: Outcome)
      requires Held() && active.Some? && (signal.Done? ==> !InHandshake(active.value.Abs()))
      requires signal.PhaseComplete? ==>
                 Sound(active.value.Abs()) && Finished(active.value.Abs()) && InHandshake(active.value.Abs())
      modifies this, conn
      ensures Held() && fresh(Repr() - old(Repr()))
      ensures var o := Conclude(old(Abs()), signal, now);
              Abs() == o.c && conn.sent == old(conn.sent) + o.sent && r == o.result
    {
      hide AdvancePhase, FinishOp, Sound, Finished;
      match signal
      case Consumed =>
        conn.SendAll([]);
        r := Quiet;
      case Intermediate(d) =>
        conn.SendAll([]);
        r := Emit(Datum(d));
      case PhaseComplete => r := AdvanceOp(now);
      case Done => r := Finish(now);
    }

    /** Step 6: the latest status of each node. */
    method CacheReply(env: Envelope)
      requires Held()
      modifies this`status
      ensures Held() && Abs() == old(Abs()).(status := CacheStatus(old(status), env))
    {
      if env.message.DspStatus? && env.src == Dsp {
        status := status.(dsp := Some(env.message.dsp));
      } else if env.message.AvrStatus? && env.src == Avr {
        status := status.(avr := Some(env.message.body));
      } else if env.message.PiStatus? && env.src == Pi {
        status := status.(pi := Some(env.message.body));
      }
    }

    /** Steps 6 to 11: cache the status, then feed the active operation or look for a shot. */
    method Dispatch(env: Envelope, now: nat) returns (r: Outcome)
      requires Valid()
      modifies Repr()
      ensures Valid() && fresh(Repr() - old(Repr()))
      ensures var o := Deliver(old(Abs()), env, now);
              Abs() == o.c && conn.sent == old(conn.sent) + o.sent && r == o.result
    {
      hide WF, Consume, Detect, IsStatusReply, CacheStatus;
      DeliverKeepsWF(Abs(), env, now);
      ghost var c0 := Abs();
      CacheReply(env);
      StatusIrrelevant(c0, Abs());
      if active.Some? && !(active.value.KeepaliveOp? && !IsStatusReply(env)) {
        r := FeedAndAdvance(env, now);
      } else {
        r := DetectShot(env, now);
      }
    }

    /** Steps 2 to 4: start the next operation, check inner deadlines, queue a keepalive if due. */
    method GetReady(now: nat)
      requires Held()
      modifies Repr()
      ensures Held() && fresh(Repr() - old(Repr()))
      ensures var o := Prepare(old(Abs()), now);
              Abs() == o.c && conn.sent == old(conn.sent) + o.sent && o.result == Quiet
    {
      hide StartNext, Expiries;
      ghost var c0, sent0 := Abs(), conn.sent;
      StartQueued(now);
      ghost var c1 := Abs();
      CheckTimeouts(now);
      Associative(sent0, StartNext(c0, now).sent, Expiries(c1, now).sent);
      if keepaliveEnabled && !keepaliveQueued && !shotInProgress
         && (if now > lastKeepalive then now - lastKeepalive else 0) >= keepaliveInterval {
        queue := queue + [Keepalive];
        keepaliveQueued := true;
      }
    }

    /** Step 1 of a poll: an overdue keepalive is dropped, anything else overdue is an error. */
    method CheckDeadline(now: nat) returns (late: bool)
      requires Valid()
      modifies this
      ensures Held() && Repr() <= old(Repr())
      ensures late <==> Overdue(old(Abs()), now) && !KeepaliveActive(old(Abs()))
      ensures Abs() == if late then old(Abs()) else Lapse(old(Abs()), now)
    {
      hide WF;
      if opDeadline.Some? && now >= opDeadline.value {
        if active.Some? && active.value.KeepaliveOp? {
          active := None;
          opDeadline := None;
          keepaliveQueued := false;
          lastKeepalive := now;
        } else {
          return true;
        }
      }
      return false;
    }

    method Poll(tick: Tick) returns (r: Outcome)
      requires Valid()
      modifies Repr()
      ensures Valid() && fresh(Repr() - old(Repr()))
      ensures var o := ClientSpec.Poll(old(Abs()), tick);
              Abs() == o.c && conn.sent == old(conn.sent) + o.sent && r == o.result
    {
      hide WF, Prepare, Deliver, Overdue, KeepaliveActive, Lapse, ActiveOp.Valid, ActiveOp.Abs;
      ghost var c0, sent0 := Abs(), conn.sent;
      PollKeepsWF(c0, tick);
      BeforeRecvKeepsWF(c0, tick.now);

      var late := CheckDeadline(tick.now);
      if late {
        conn.SendAll([]);
        return TimedOut;
      }
      GetReady(tick.now);
      if tick.env.None? { return Quiet; }
      ghost var c1 := Abs();
      r := Dispatch(tick.env.value, tick.now);
      Associative(sent0, BeforeRecv(c0, tick.now).sent, Deliver(c1, tick.env.value, tick.now).sent);
    }
  }
}
