/** The blocking side of src/seq.rs: `drive` and the wrappers that run one sequencer each to completion. */
module Blocking {
  import opened Prelude
  import opened Wire
  import opened Protocol
  import opened Script
  import D = DspSeq
  import A = AvrSeq
  import P = PiSeq
  import C = ConfigSeq
  import R = ArmSeq

  // ---- specification -----------------------------------------------------------------

  /** The state of whichever sequencer is being driven. */
  datatype Machine = Scripted(p: Progress) | Retrying(a: R.ArmState)

  datatype MStep = MStep(next: Machine, sends: seq<Action>)

  function MFeed(m: Machine, env: Envelope, now: nat): MStep {
    match m
    case Scripted(p) => var s := Feed(p, env, now); MStep(Scripted(s.next), s.sends)
    case Retrying(a) => var s := R.ArmFeed(a, env); MStep(Retrying(s.next), s.sends)
  }

  function MExpire(m: Machine, now: nat): MStep {
    match m
    case Scripted(p) => var s := Expire(p, now); MStep(Scripted(s.next), s.sends)
    case Retrying(_) => MStep(m, [])
  }

  predicate MComplete(m: Machine) {
    match m
    case Scripted(p) => Complete(p)
    case Retrying(a) => a.pos == 4
  }

  /** Driving a sequencer leaves it the same sequencer. */
  predicate SameKind(m: Machine, n: Machine) {
    if m.Scripted? then n.Scripted? && n.p.script == m.p.script else n.Retrying?
  }

  /** What a round does before it receives: the loop of `sync_avr` gives up on overdue calibration replies. */
  function BeforeRound(cal: bool, m: Machine, now: nat): MStep { if cal then MExpire(m, now) else MStep(m, []) }

  /** How a drive ends; `Starved` is a stream that stopped before either. */
  datatype End = Finished | Late | Starved

  datatype Driven = Driven(end: End, m: Machine, sent: seq<Action>, left: seq<Tick>, at: nat)

  function DriveRun(cal: bool, m: Machine, deadline: nat, ticks: seq<Tick>): (d: Driven)
    ensures |d.left| <= |ticks|
    ensures d.end.Finished? ==> |d.left| < |ticks|
    ensures d.end.Starved? ==> d.left == []
    ensures SameKind(m, d.m) && (d.end.Finished? ==> MComplete(d.m))
    decreases |ticks|
  {
    if ticks == [] then Driven(Starved, m, [], [], 0)
    else
      var now := ticks[0].now;
      if now >= deadline then Driven(Late, m, [], ticks, now)
      else
        var e := BeforeRound(cal, m, now);
        if ticks[0].env.None? then
          var rest := DriveRun(cal, e.next, deadline, ticks[1..]);
          rest.(sent := e.sends + rest.sent)
        else
          var f := MFeed(e.next, ticks[0].env.value, now);
          if MComplete(f.next) then Driven(Finished, f.next, e.sends + f.sends, ticks[1..], now)
          else
            var rest := DriveRun(cal, f.next, deadline, ticks[1..]);
            rest.(sent := e.sends + f.sends + rest.sent)
  }

  /** The wrappers, in the order a program calls them. */
  datatype Stage = SyncDsp | SyncAvr | SyncPi | ConfigureAvr(s: C.AvrSettings) | ConfigureCamera(cam: Payload) | ArmDevice

  const PATIENCE: nat := 30000

  function ScriptOf(stage: Stage): seq<Exchange>
    requires !stage.ArmDevice?
  {
    match stage
    case SyncDsp => D.DspScript()
    case SyncAvr => A.AvrScript()
    case SyncPi => P.PiScript()
    case ConfigureAvr(s) => C.AvrConfigScript(s)
    case ConfigureCamera(cam) => C.CamScript(cam)
  }

  function Enter(stage: Stage): Machine {
    if stage.ArmDevice? then Retrying(R.BEGIN) else Scripted(Begin(ScriptOf(stage)))
  }

  function FirstSend(stage: Stage): seq<Action> {
    if stage.ArmDevice? then [R.POLL_DSP] else Opening(ScriptOf(stage))
  }

  /** The sequencer is the one this wrapper drives. */
  predicate Serves(stage: Stage, m: Machine) {
    if stage.ArmDevice? then m.Retrying? else m.Scripted? && m.p.script == ScriptOf(stage)
  }

  /** What the wrappers return. */
  datatype Returned =
    | SyncedDsp(dsp: D.DspSync) | SyncedAvr(avr: A.AvrSync) | SyncedPi(pi: P.PiSync)
    | AvrConfigured | CameraConfigured | DeviceArmed

  function ResultOf(stage: Stage, m: Machine): Returned
    requires Serves(stage, m) && MComplete(m)
  {
    match stage
    case SyncDsp => SyncedDsp(D.DspResult(m.p))
    case SyncAvr => SyncedAvr(A.AvrResult(m.p))
    case SyncPi => SyncedPi(P.PiResult(m.p))
    case ConfigureAvr(_) => AvrConfigured
    case ConfigureCamera(_) => CameraConfigured
    case ArmDevice => DeviceArmed
  }

  /** How a program ended, and what its wrappers had returned by then. */
  datatype Ran = Ran(end: End, sent: seq<Action>, left: seq<Tick>, results: seq<Returned>)

  /** One wrapper after the other, each stopping the program if it fails. */
  function Program(stages: seq<Stage>, now: nat, ticks: seq<Tick>): (r: Ran)
    ensures |r.left| <= |ticks|
    ensures r.end.Starved? ==> r.left == []
    ensures |r.results| <= |stages| && (r.end.Finished? <==> |r.results| == |stages|)
    decreases |stages|, 0
  {
    if stages == [] then Ran(Finished, [], ticks, [])
    else
      var rest := ContinueProgram(stages[0], Enter(stages[0]), now + PATIENCE, stages[1..], ticks);
      rest.(sent := FirstSend(stages[0]) + rest.sent)
  }

  /** The rest of a program whose current stage has reached m. */
  function ContinueProgram(stage: Stage, m: Machine, deadline: nat, after: seq<Stage>, ticks: seq<Tick>): (r: Ran)
    requires Serves(stage, m)
    ensures |r.left| <= |ticks|
    ensures r.end.Starved? ==> r.left == []
    ensures r.end.Finished? ==> |r.left| < |ticks|
    ensures |r.results| <= 1 + |after| && (r.end.Finished? <==> |r.results| == 1 + |after|)
    decreases |after|, 1
  {
    var d := DriveRun(stage.SyncAvr?, m, deadline, ticks);
    if !d.end.Finished? then Ran(d.end, d.sent, d.left, [])
    else
      var rest := Program(after, d.at, d.left);
      rest.(sent := d.sent + rest.sent, results := [ResultOf(stage, d.m)] + rest.results)
  }

  // ---- the loop ------------------------------------------------------------------------

  /** Any of the sequencers, as `impl Sequence` is. */
  datatype Sequencer =
    | DspS(d: D.DspSequencer) | AvrS(a: A.AvrSequencer) | PiS(p: P.PiSequencer)
    | AvrConfigS(c: C.AvrConfigSequencer) | CamS(k: C.CameraConfigSequencer) | ArmS(r: R.ArmSequencer)
  {
    function Obj(): object {
      match this
      case DspS(d) => d
      case AvrS(a) => a
      case PiS(p) => p
      case AvrConfigS(c) => c
      case CamS(k) => k
      case ArmS(r) => r
    }

    ghost predicate Valid()
      reads Obj()
    {
      match this
      case DspS(d) => d.Valid()
      case AvrS(a) => a.Valid()
      case PiS(p) => p.Valid()
      case AvrConfigS(c) => c.Valid()
      case CamS(k) => k.Valid()
      case ArmS(r) => r.Valid()
    }

    ghost function Abs(): Machine
      reads Obj()
    {
      match this
      case DspS(d) => Scripted(d.Abs())
      case AvrS(a) => Scripted(a.Abs())
      case PiS(p) => Scripted(p.Abs())
      case AvrConfigS(c) => Scripted(c.Abs())
      case CamS(k) => Scripted(k.Abs())
      case ArmS(r) => Retrying(r.Abs())
    }

    method Feed(env: Envelope, now: nat) returns (actions: seq<Action>)
      requires Valid()
      modifies Obj()
      ensures Valid()
      ensures MStep(Abs(), actions) == MFeed(old(Abs()), env, now)
    {
      hide Script.Feed, R.ArmFeed;
      match this
      case DspS(d) => actions := d.FeedMessage(env, now);
      case AvrS(a) => actions := a.FeedMessage(env, now);
      case PiS(p) => actions := p.FeedMessage(env, now);
      case AvrConfigS(c) => actions := c.FeedMessage(env, now);
      case CamS(k) => actions := k.FeedMessage(env, now);
      case ArmS(r) => actions := r.FeedMessage(env);
    }

    method IsComplete() returns (b: bool)
      requires Valid()
      ensures b == MComplete(Abs())
    {
      match this
      case DspS(d) => b := d.IsComplete();
      case AvrS(a) => b := a.IsComplete();
      case PiS(p) => b := p.IsComplete();
      case AvrConfigS(c) => b := CompleteConfig(c);
      case CamS(k) => b := k.IsComplete();
      case ArmS(r) => b := r.IsComplete();
    }

    static method CompleteConfig(c: C.AvrConfigSequencer) returns (b: bool)
      requires c.Valid()
      ensures b == Complete(c.Abs())
    {
      b := c.IsComplete();
    }
  }

  /**
   * `drive`: sends the initial actions, then receives and feeds until complete or past the deadline. The
   * rounds still unseen at the end are left.
   */
  method Drive(conn: Connection, s: Sequencer, actions: seq<Action>, deadline: nat, ticks: seq<Tick>)
    returns (end: End, at: nat, left: seq<Tick>)
    requires s.Valid() && s.Obj() != conn
    modifies conn, s.Obj()
    ensures s.Valid()
    ensures var d := DriveRun(false, old(s.Abs()), deadline, ticks);
            Driven(end, s.Abs(), conn.sent, left, at) == d.(sent := old(conn.sent) + actions + d.sent)
  {
    hide MFeed, MComplete, SameKind;
    ghost var whole := DriveRun(false, s.Abs(), deadline, ticks);
    conn.SendAll(actions);
    ghost var sent0 := conn.sent;
    ghost var sofar: seq<Action> := [];
    left := ticks;
    Associative(whole.sent, [], []);
    Associative(sent0, [], []);
    while left != []
      invariant s.Valid()
      invariant conn.sent == sent0 + sofar
      invariant var rest := DriveRun(false, s.Abs(), deadline, left); rest.(sent := sofar + rest.sent) == whole
      decreases |left|
    {
      var tick := left[0];
      Associative(sofar, [], []);
      if tick.now >= deadline { return Late, tick.now, left; }
      left := left[1..];
      if tick.env.Some? {
        var replies := s.Feed(tick.env.value, tick.now);
        conn.SendAll(replies);
        Associative(sent0, sofar, replies);
        Associative(replies, [], []);
        var complete := s.IsComplete();
        if complete { return Finished, tick.now, left; }
        Associative(sofar, replies, DriveRun(false, s.Abs(), deadline, left).sent);
        sofar := sofar + replies;
      } else {
        Associative(DriveRun(false, s.Abs(), deadline, left).sent, [], []);
      }
    }
    Associative(sofar, [], []);
    return Starved, 0, left;
  }

  /** `sync_avr`: a loop of its own, which also gives up on calibration replies that are overdue. */
  method SyncAvrBlocking(conn: Connection, now: nat, ticks: seq<Tick>)
    returns (end: End, r: Option<A.AvrSync>, left: seq<Tick>)
    modifies conn
    ensures var d := DriveRun(true, Enter(SyncAvr), now + PATIENCE, ticks);
            && end == d.end && left == d.left && conn.sent == old(conn.sent) + FirstSend(SyncAvr) + d.sent
            && (r.Some? <==> end.Finished?)
            && (r.Some? ==> SyncedAvr(r.value) == ResultOf(SyncAvr, d.m))
  {
    hide MFeed, MExpire, SameKind, A.AvrScript, A.AvrResult;
    var a := new A.AvrSequencer();
    var actions := A.AvrSequencer.InitialActions();
    AvrOpening();
    var deadline := now + PATIENCE;
    ghost var whole := DriveRun(true, Scripted(a.Abs()), deadline, ticks);
    conn.SendAll(actions);
    ghost var sent0 := conn.sent;
    ghost var sofar: seq<Action> := [];
    left := ticks;
    Associative(whole.sent, [], []);
    Associative(sent0, [], []);
    while left != []
      invariant a.Valid() && fresh(a)
      invariant conn.sent == sent0 + sofar
      invariant var rest := DriveRun(true, Scripted(a.Abs()), deadline, left); rest.(sent := sofar + rest.sent) == whole
      decreases |left|
    {
      var tick := left[0];
      Associative(sofar, [], []);
      if tick.now >= deadline { return Late, None, left; }
      var timeoutActions, replies := AvrRound(a, conn, tick);
      left := left[1..];
      Associative(sent0, sofar, timeoutActions + replies);
      Associative(sofar, timeoutActions + replies, DriveRun(true, Scripted(a.Abs()), deadline, left).sent);
      Associative(timeoutActions, [], []);
      sofar := sofar + (timeoutActions + replies);
      if tick.env.Some? && a.IsComplete() {
        var result := a.IntoResult();
        return Finished, Some(result), left;
      }
    }
    Associative(sofar, [], []);
    return Starved, None, left;
  }

  /** One round of that loop: calibration timeout, then the message if there is one. */
  method AvrRound(a: A.AvrSequencer, conn: Connection, tick: Tick) returns (timeoutActions: seq<Action>, replies: seq<Action>)
    requires a.Valid()
    modifies a, conn
    ensures a.Valid() && conn.sent == old(conn.sent) + (timeoutActions + replies)
    ensures var e := MExpire(Scripted(old(a.Abs())), tick.now);
            && timeoutActions == e.sends
            && if tick.env.None? then Scripted(a.Abs()) == e.next && replies == []
               else MStep(Scripted(a.Abs()), replies) == MFeed(e.next, tick.env.value, tick.now)
  {
    hide Expire, Feed;
    timeoutActions := a.CheckCalTimeout(tick.now);
    conn.SendAll(timeoutActions);
    replies := [];
    if tick.env.Some? { replies := a.FeedMessage(tick.env.value, tick.now); }
    conn.SendAll(replies);
    Associative(old(conn.sent), timeoutActions, replies);
  }

  lemma AvrOpening()
    ensures FirstSend(SyncAvr) == A.AvrSequencer.InitialActions()
  {}

  // ---- when a wrapper succeeds -----------------------------------------------------------

  /** The rounds before the first at the deadline or later. */
  function InTime(ticks: seq<Tick>, deadline: nat): seq<Tick> {
    if ticks == [] || ticks[0].now >= deadline then [] else [ticks[0]] + InTime(ticks[1..], deadline)
  }

  /** Overdue replies are only looked for where there are any, and the last reply is not one of them. */
  predicate Drivable(cal: bool, p: Progress) {
    && Good(p) && !Complete(p)
    && (if cal then p.script != [] && !p.script[|p.script| - 1].optional else NoneOptional(p.script))
  }

  lemma RoundIsTick(cal: bool, p: Progress, tick: Tick)
    requires Drivable(cal, p)
    ensures var (e, q) := (BeforeRound(cal, Scripted(p), tick.now), OnTick(p, tick).next);
            && (if tick.env.None? then e.next == Scripted(q) && !Complete(q)
                else MFeed(e.next, tick.env.value, tick.now).next == Scripted(q))
            && (Complete(q) || Drivable(cal, q)) && Good(q)
  {
    OnTickTrace(p, tick);
    if cal { GivesUpNoLast(p, tick.now); } else { GivesUpNothing(p, tick.now); }
    hide Good, Expire, Script.Feed;
  }

  lemma GivesUpNoLast(p: Progress, now: nat)
    requires Good(p) && !Complete(p) && !p.script[|p.script| - 1].optional
    ensures !Complete(Expire(p, now).next)
  {}

  lemma GivesUpNothing(p: Progress, now: nat)
    requires Good(p) && NoneOptional(p.script)
    ensures Expire(p, now) == Step(p, [])
  {
    PlainTick(p, Tick(now, None));
    hide Good, NoneOptional, Expire;
  }

  lemma {:induction false} StaysComplete(p: Progress, ticks: seq<Tick>)
    requires Good(p) && Complete(p)
    ensures Complete(Run(p, ticks).next)
    decreases |ticks|
  {
    if ticks != [] {
      assert OnTick(p, ticks[0]).next == p;
      StaysComplete(p, ticks[1..]);
    }
  }

  lemma {:induction false} DriveScripted(cal: bool, p: Progress, deadline: nat, ticks: seq<Tick>)
    requires Drivable(cal, p)
    ensures DriveRun(cal, Scripted(p), deadline, ticks).end.Finished? <==> Complete(Run(p, InTime(ticks, deadline)).next)
    decreases |ticks|
  {
    hide OnTick, BeforeRound, MFeed, Drivable, Good;
    if ticks != [] && ticks[0].now < deadline {
      var rest := InTime(ticks[1..], deadline);
      assert ([ticks[0]] + rest)[1..] == rest;
      RoundIsTick(cal, p, ticks[0]);
      var q := OnTick(p, ticks[0]).next;
      if Complete(q) { StaysComplete(q, rest); } else { DriveScripted(cal, q, deadline, ticks[1..]); }
    } else {
      assert !Complete(p) by { NotYet(cal, p); }
    }
  }

  lemma NotYet(cal: bool, p: Progress)
    requires Drivable(cal, p)
    ensures !Complete(p)
  {}

  lemma {:induction false} StaysArmed(a: R.ArmState, ms: seq<Envelope>)
    requires a.pos == 4
    ensures R.ArmFrom(a, ms) == a
    decreases |ms|
  {
    if ms != [] { StaysArmed(a, ms[1..]); }
  }

  lemma {:induction false} DriveArming(a: R.ArmState, deadline: nat, ticks: seq<Tick>)
    requires a.pos != 4
    ensures DriveRun(false, Retrying(a), deadline, ticks).end.Finished?
            <==> R.ArmFrom(a, MessagesIn(InTime(ticks, deadline))).pos == 4
    decreases |ticks|
  {
    hide R.ArmFeed;
    if ticks != [] && ticks[0].now < deadline {
      var rest := InTime(ticks[1..], deadline);
      assert ([ticks[0]] + rest)[1..] == rest;
      if ticks[0].env.None? {
        assert [] + MessagesIn(rest) == MessagesIn(rest);
        DriveArming(a, deadline, ticks[1..]);
      } else {
        var env := ticks[0].env.value;
        var b := R.ArmFeed(a, env).next;
        assert ([env] + MessagesIn(rest))[1..] == MessagesIn(rest);
        if b.pos == 4 { StaysArmed(b, MessagesIn(rest)); } else { DriveArming(b, deadline, ticks[1..]); }
      }
    }
  }

  /** What the device must send for a wrapper to succeed. */
  predicate Served(stage: Stage, start: nat, ticks: seq<Tick>) {
    match stage
    case SyncAvr => PassedIn(A.AvrScript(), start, ticks)
    case ArmDevice => R.Round(MessagesIn(ticks)).armed
    case _ => OccurIn(ScriptOf(stage), MessagesIn(ticks))
  }

  /**
   * A wrapper succeeds exactly when what it needs comes within 30 seconds: its replies in order, with anything
   * in between; for the AVR phase each calibration answered or waited out; for arming, whatever rejections, the
   * statuses, acknowledgement and confirmations of the last round.
   */
  lemma WrapperSucceedsExactly(stage: Stage, now: nat, ticks: seq<Tick>)
    requires stage.SyncAvr? ==> InTimeOrder(now, ticks)
    ensures Program([stage], now, ticks).end.Finished? <==> Served(stage, now, InTime(ticks, now + 30000))
  {
    hide PassedIn, OccurIn, R.Round;
    OneWrapper(stage, now, ticks);
    var got := InTime(ticks, now + 30000);
    if stage.ArmDevice? {
      R.ArmsFromBegin(MessagesIn(got));
      DriveArming(R.BEGIN, now + 30000, ticks);
    } else {
      if stage.SyncAvr? { InTimeOrdered(now, ticks, now + 30000); }
      ServedScripted(stage, now, got);
      ScriptDrivable(stage);
      hide InTime, Drivable, Served, Run, Complete, InTimeOrder;
      DriveScripted(stage.SyncAvr?, Begin(ScriptOf(stage)), now + 30000, ticks);
    }
  }

  lemma OneWrapper(stage: Stage, now: nat, ticks: seq<Tick>)
    ensures Program([stage], now, ticks).end.Finished?
            <==> DriveRun(stage.SyncAvr?, Enter(stage), now + 30000, ticks).end.Finished?
  {
    hide DriveRun, ScriptOf;
    assert [stage][1..] == [];
  }

  lemma ServedScripted(stage: Stage, now: nat, got: seq<Tick>)
    requires !stage.ArmDevice? && (stage.SyncAvr? ==> InTimeOrder(now, got))
    ensures Complete(Run(Begin(ScriptOf(stage)), got).next) <==> Served(stage, now, got)
  {
    hide D.DspScript, A.AvrScript, P.PiScript, C.AvrConfigScript, C.CamScript, C.DisarmScript, Complete, OccurIn, PassedIn, Run;
    match stage
    case SyncDsp => D.SyncsExactly(got);
    case SyncAvr => A.SyncsExactly(now, got);
    case SyncPi => P.SyncsExactly(got);
    case ConfigureAvr(s) => C.ConfiguresExactly(s, got);
    case ConfigureCamera(cam) => C.CameraAndDisarmComplete(cam, got);
  }

  lemma ScriptDrivable(stage: Stage)
    requires !stage.ArmDevice?
    ensures Drivable(stage.SyncAvr?, Begin(ScriptOf(stage)))
  {
    if stage.ConfigureAvr? {
      var script := C.AvrConfigScript(stage.s);
      forall i | 0 <= i < |script| ensures !script[i].optional { C.ScriptOnBus(stage.s, i); }
      hide C.AvrConfigScript;
    }
  }

  lemma {:induction false} InTimeOrdered(start: nat, ticks: seq<Tick>, deadline: nat)
    requires InTimeOrder(start, ticks)
    ensures InTimeOrder(start, InTime(ticks, deadline))
    decreases |ticks|
  {
    if ticks != [] && ticks[0].now < deadline {
      InTimeOrdered(ticks[0].now, ticks[1..], deadline);
      assert ([ticks[0]] + InTime(ticks[1..], deadline))[1..] == InTime(ticks[1..], deadline);
    }
  }
}
