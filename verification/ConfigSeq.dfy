/** Phases 4, 5 and 5.5: AVR configuration, camera configuration and disarm (src/seq.rs). */
module ConfigSeq {
  import opened Prelude
  import opened Wire
  import opened Protocol
  import opened Script

  datatype AvrSettings = AvrSettings(mode: byte, params: seq<Param>, radarCal: Option<Payload>)

  // ---- AVR configuration -------------------------------------------------------

  const GATE: Action := Send(AvrConfigCmd(false), Avr)

  function AckOf(a: Action): Exchange { Exchange(Some(a), From(Avr, KConfigAck), false) }

  /** Each parameter write is committed by a gate command of its own. */
  function ParamExchanges(params: seq<Param>): (s: seq<Exchange>)
    ensures |s| == 2 * |params|
  {
    if params == [] then []
    else [AckOf(Send(WriteParam(params[0]), Avr)), AckOf(GATE)] + ParamExchanges(params[1..])
  }

  lemma {:induction false} ParamAt(params: seq<Param>, k: nat)
    requires k < |params|
    ensures ParamExchanges(params)[2 * k] == AckOf(Send(WriteParam(params[k]), Avr))
    ensures ParamExchanges(params)[2 * k + 1] == AckOf(GATE)
  {
    if k > 0 { ParamAt(params[1..], k - 1); }
  }

  function CalExchanges(cal: Option<Payload>): seq<Exchange> {
    if cal.None? then [] else [Ask(WriteRadarCal(cal.value), Avr, KRadarCal), AckOf(GATE)]
  }

  function AvrConfigScript(s: AvrSettings): (r: seq<Exchange>)
    ensures |r| == 3 + 2 * |s.params| + (if s.radarCal.Some? then 2 else 0)
  {
    [AckOf(GATE)] + ParamExchanges(s.params) + [Ask(SetMode(s.mode), Avr, KModeSet), AckOf(GATE)]
    + CalExchanges(s.radarCal)
  }

  /** What the script holds at each position of the parameter block and after it. */
  lemma ParamsInScript(s: AvrSettings, k: nat)
    requires k < |s.params|
    ensures AvrConfigScript(s)[1 + 2 * k] == AckOf(Send(WriteParam(s.params[k]), Avr))
    ensures AvrConfigScript(s)[2 + 2 * k] == AckOf(GATE)
  {
    ParamAt(s.params, k);
  }

  lemma EndsOfScript(s: AvrSettings)
    ensures var (x, n) := (AvrConfigScript(s), 2 * |s.params|);
            && x[0] == AckOf(GATE) && x[n + 1] == Ask(SetMode(s.mode), Avr, KModeSet) && x[n + 2] == AckOf(GATE)
            && (s.radarCal.Some? ==>
                 x[n + 3] == Ask(WriteRadarCal(s.radarCal.value), Avr, KRadarCal) && x[n + 4] == AckOf(GATE))
  {}

  lemma ScriptOnBus(s: AvrSettings, i: nat)
    requires i < |AvrConfigScript(s)|
    ensures OnBus(AvrConfigScript(s)[i], Avr) && !AvrConfigScript(s)[i].optional
    ensures AvrConfigScript(s)[i].awaits.kind.KConfigAck? || AvrConfigScript(s)[i].awaits.kind.KModeSet?
         || AvrConfigScript(s)[i].awaits.kind.KRadarCal?
  {
    EndsOfScript(s);
    var n := 2 * |s.params|;
    if 0 < i <= n {
      var k := (i - 1) / 2;
      ParamsInScript(s, k);
      assert i == 1 + 2 * k || i == 2 + 2 * k;
    }
  }

  datatype AvrConfigStep =
    | WaitInitGateAck | WaitParamAck(paramIdx: nat) | WaitParamCommitAck(paramIdx: nat)
    | WaitModeEcho | WaitModeCommitAck | WaitRadarCalEcho | WaitRadarCalCommitAck | Done

  function AvrConfigPos(step: AvrConfigStep, s: AvrSettings): nat {
    var n := 2 * |s.params|;
    match step
    case WaitInitGateAck => 0
    case WaitParamAck(k) => 1 + 2 * k
    case WaitParamCommitAck(k) => 2 + 2 * k
    case WaitModeEcho => n + 1
    case WaitModeCommitAck => n + 2
    case WaitRadarCalEcho => n + 3
    case WaitRadarCalCommitAck => n + 4
    case Done => |AvrConfigScript(s)|
  }

  class AvrConfigSequencer {
    var step: AvrConfigStep
    const settings: AvrSettings
    ghost var replies: seq<Option<Message>>

    ghost function Abs(): Progress
      reads this
    {
      Progress(AvrConfigScript(settings), replies, None)
    }

    ghost predicate Valid()
      reads this
    {
      && |replies| == AvrConfigPos(step, settings)
      && (step.WaitParamAck? || step.WaitParamCommitAck? ==> step.paramIdx < |settings.params|)
      && (step.WaitRadarCalEcho? || step.WaitRadarCalCommitAck? ==> settings.radarCal.Some?)
    }

    constructor (settings: AvrSettings)
      ensures Valid() && Abs() == Begin(AvrConfigScript(settings)) && this.settings == settings
    {
      this.step := WaitInitGateAck;
      this.settings := settings;
      this.replies := [];
    }

    static function InitialActions(): seq<Action> { [GATE] }

    predicate IsComplete()
      reads this
    {
      step.Done?
    }

    method FeedMessage(env: Envelope, now: nat) returns (actions: seq<Action>)
      requires Valid()
      modifies this
      ensures Valid()
      ensures Step(Abs(), actions) == Feed(old(Abs()), env, now)
    {
      forall i | 0 <= i < |AvrConfigScript(settings)| ensures OnBus(AvrConfigScript(settings)[i], Avr) {
        ScriptOnBus(settings, i);
      }
      FeedOnBus(Abs(), Avr, env, now);
      if |replies| < |AvrConfigScript(settings)| { ScriptOnBus(settings, |replies|); }
      if ShouldSkipWithModeAck(env, Avr) || step.Done? { return []; }
      hide AvrConfigScript, Fits, Is, Advance;
      if step.WaitInitGateAck? {
        actions := FeedGate(env.message, now);
      } else if step.WaitParamAck? || step.WaitParamCommitAck? {
        actions := FeedParams(env.message, now);
      } else {
        actions := FeedModeAndCal(env.message, now);
      }
    }

    method FeedGate(m: Message, now: nat) returns (actions: seq<Action>)
      requires Valid() && step.WaitInitGateAck?
      modifies this
      ensures Valid()
      ensures Step(Abs(), actions) == Answer(old(Abs()), m, now)
    {
      hide AvrConfigScript;
      EndsOfScript(settings);
      if !m.ConfigAck? { return []; }
      replies := replies + [Some(m)];
      if |settings.params| == 0 {
        step := WaitModeEcho;
        return [Send(SetMode(settings.mode), Avr)];
      }
      ParamsInScript(settings, 0);
      step := WaitParamAck(0);
      return [Send(WriteParam(settings.params[0]), Avr)];
    }

    method FeedParams(m: Message, now: nat) returns (actions: seq<Action>)
      requires Valid() && (step.WaitParamAck? || step.WaitParamCommitAck?)
      modifies this
      ensures Valid()
      ensures Step(Abs(), actions) == Answer(old(Abs()), m, now)
    {
      hide AvrConfigScript;
      ParamsInScript(settings, step.paramIdx);
      EndsOfScript(settings);
      if !m.ConfigAck? { return []; }
      replies := replies + [Some(m)];
      match step
      case WaitParamAck(paramIdx) =>
        step := WaitParamCommitAck(paramIdx);
        return [Send(AvrConfigCmd(false), Avr)];
      case WaitParamCommitAck(paramIdx) =>
        var nextIdx := paramIdx + 1;
        if nextIdx < |settings.params| {
          ParamsInScript(settings, nextIdx);
          step := WaitParamAck(nextIdx);
          return [Send(WriteParam(settings.params[nextIdx]), Avr)];
        }
        step := WaitModeEcho;
        return [Send(SetMode(settings.mode), Avr)];
    }

    method FeedModeAndCal(m: Message, now: nat) returns (actions: seq<Action>)
      requires Valid()
      requires step.WaitModeEcho? || step.WaitModeCommitAck? || step.WaitRadarCalEcho? || step.WaitRadarCalCommitAck?
      modifies this
      ensures Valid()
      ensures Step(Abs(), actions) == Answer(old(Abs()), m, now)
    {
      hide AvrConfigScript, ParamExchanges;
      EndsOfScript(settings);
      match step
      case WaitModeEcho =>
        if !m.ModeSet? { return []; }
        step := WaitModeCommitAck;
        replies := replies + [Some(m)];
        return [Send(AvrConfigCmd(false), Avr)];
      case WaitModeCommitAck =>
        if !m.ConfigAck? { return []; }
        replies := replies + [Some(m)];
        if settings.radarCal.Some? {
          step := WaitRadarCalEcho;
          return [Send(WriteRadarCal(settings.radarCal.value), Avr)];
        }
        step := Done;
        return [];
      case WaitRadarCalEcho =>
        if !m.RadarCal? { return []; }
        step := WaitRadarCalCommitAck;
        replies := replies + [Some(m)];
        return [Send(AvrConfigCmd(false), Avr)];
      case WaitRadarCalCommitAck =>
        if !m.ConfigAck? { return []; }
        step := Done;
        replies := replies + [Some(m)];
        return [];
    }
  }

  /** The plan in the order the device must see it. */
  function Plan(s: AvrSettings): seq<Action> {
    [Send(AvrConfigCmd(false), Avr)] + ParamPlan(s.params)
    + [Send(SetMode(s.mode), Avr), Send(AvrConfigCmd(false), Avr)]
    + (if s.radarCal.Some? then [Send(WriteRadarCal(s.radarCal.value), Avr), Send(AvrConfigCmd(false), Avr)] else [])
  }

  function ParamPlan(params: seq<Param>): seq<Action> {
    if params == [] then []
    else [Send(WriteParam(params[0]), Avr), Send(AvrConfigCmd(false), Avr)] + ParamPlan(params[1..])
  }

  lemma {:induction false} CommandsOfParams(params: seq<Param>)
    ensures Commands(ParamExchanges(params)) == ParamPlan(params)
  {
    if params != [] {
      var (x, y) := (AckOf(Send(WriteParam(params[0]), Avr)), AckOf(GATE));
      CommandsAppend([x, y], ParamExchanges(params[1..]));
      CommandsOfTwo(x, y);
      CommandsOfParams(params[1..]);
    }
  }

  lemma CommandsOfTwo(x: Exchange, y: Exchange)
    ensures Commands([x, y]) == ToSend(x) + ToSend(y)
  {
    CommandsAppend([x], [y]);
    assert [x] + [y] == [x, y];
    CommandsOfOne(x);
    CommandsOfOne(y);
  }

  lemma CommandsOfOne(x: Exchange)
    ensures Commands([x]) == ToSend(x)
  {
    assert [x][1..] == [];
    Associative(ToSend(x), [], []);
  }

  lemma PlanOfScript(s: AvrSettings)
    ensures Commands(AvrConfigScript(s)) == Plan(s)
  {
    var a, b, c, d := [AckOf(GATE)], ParamExchanges(s.params),
                      [Ask(SetMode(s.mode), Avr, KModeSet), AckOf(GATE)], CalExchanges(s.radarCal);
    CommandsAppend(a, b);
    CommandsAppend(a + b, c);
    CommandsAppend(a + b + c, d);
    CommandsOfParams(s.params);
    CommandsOfTwo(c[0], c[1]);
    CommandsOfOne(a[0]);
    hide Commands;
    if s.radarCal.Some? { CommandsOfTwo(d[0], d[1]); } else { assert Commands(d) == []; }
  }

  /**
   * For any number of parameters and every message stream, what has been sent is a prefix of the plan,
   * and the whole plan when configuration is complete.
   */
  lemma ConfigureSendsPlan(s: AvrSettings, ticks: seq<Tick>)
    ensures [GATE] + Run(Begin(AvrConfigScript(s)), ticks).sends <= Plan(s)
    ensures Complete(Run(Begin(AvrConfigScript(s)), ticks).next) ==>
              [GATE] + Run(Begin(AvrConfigScript(s)), ticks).sends == Plan(s)
  {
    RunTrace(AvrConfigScript(s), ticks);
    PlanOfScript(s);
  }

  /**
   * Configuration completes exactly when its replies occur in the stream in order: an acknowledgement, two
   * for every parameter, the mode's echo and an acknowledgement, and the same for a calibration.
   */
  lemma ConfiguresExactly(s: AvrSettings, ticks: seq<Tick>)
    ensures Complete(Run(Begin(AvrConfigScript(s)), ticks).next) <==> OccurIn(AvrConfigScript(s), MessagesIn(ticks))
  {
    var script := AvrConfigScript(s);
    forall i | 0 <= i < |script| ensures !script[i].optional { ScriptOnBus(s, i); }
    CompletesExactly(script, ticks);
  }

  // ---- camera configuration ----------------------------------------------------

  datatype CamConfigStep = WaitConfigAck | WaitReadback | WaitCamStateAck | WaitParamAck2 | CamDone

  const PI_INTERVAL: Param := Param(0x02, Int24(10))

  function CamScript(cam: Payload): (s: seq<Exchange>)
    ensures |s| == 4
  {
    [Ask(WriteCamConfig(cam), Pi, KConfigAck), Ask(CamConfigReq, Pi, KCamConfig),
     Ask(WriteCamState(0x01), Pi, KConfigAck), Ask(WriteParam(PI_INTERVAL), Pi, KConfigAck)]
  }

  function CamPos(step: CamConfigStep): nat {
    match step
    case WaitConfigAck => 0
    case WaitReadback => 1
    case WaitCamStateAck => 2
    case WaitParamAck2 => 3
    case CamDone => 4
  }

  class CameraConfigSequencer {
    var step: CamConfigStep
    ghost const cam: Payload
    ghost var replies: seq<Option<Message>>

    ghost function Abs(): Progress
      reads this
    {
      Progress(CamScript(cam), replies, None)
    }

    ghost predicate Valid()
      reads this
    {
      |replies| == CamPos(step)
    }

    constructor (ghost cam: Payload)
      ensures Valid() && Abs() == Begin(CamScript(cam)) && this.cam == cam
    {
      this.step := WaitConfigAck;
      this.cam := cam;
      this.replies := [];
    }

    static function InitialActions(config: Payload): seq<Action> { [Send(WriteCamConfig(config), Pi)] }

    predicate IsComplete()
      reads this
    {
      step.CamDone?
    }

    method FeedMessage(env: Envelope, now: nat) returns (actions: seq<Action>)
      requires Valid()
      modifies this
      ensures Valid()
      ensures Step(Abs(), actions) == Feed(old(Abs()), env, now)
    {
      if ShouldSkipWithModeAck(env, Pi) { return []; }
      var m := env.message;
      match step
      case WaitConfigAck =>
        if !m.ConfigAck? { return []; }
        step := WaitReadback;
        replies := replies + [Some(m)];
        return [Send(CamConfigReq, Pi)];
      case WaitReadback =>
        if !m.CamConfig? { return []; }
        step := WaitCamStateAck;
        replies := replies + [Some(m)];
        return [Send(WriteCamState(0x01), Pi)];
      case WaitCamStateAck =>
        if !m.ConfigAck? { return []; }
        step := WaitParamAck2;
        replies := replies + [Some(m)];
        return [Send(WriteParam(PI_INTERVAL), Pi)];
      case WaitParamAck2 =>
        if !m.ConfigAck? { return []; }
        step := CamDone;
        replies := replies + [Some(m)];
        return [];
      case CamDone => return [];
    }
  }

  // ---- disarm --------------------------------------------------------------------

  datatype DisarmStep = WaitAck | WaitModeReset | WaitStateIdle | Disarmed

  /** One command, then two signals the device sends on its own, from any bus. */
  function DisarmScript(): (s: seq<Exchange>)
    ensures |s| == 3
  {
    [AckOf(GATE), Exchange(None, ModeReset, false), Exchange(None, StateIdle, false)]
  }

  function DisarmPos(step: DisarmStep): nat {
    match step
    case WaitAck => 0
    case WaitModeReset => 1
    case WaitStateIdle => 2
    case Disarmed => 3
  }

  class DisarmSequencer {
    var step: DisarmStep
    ghost var replies: seq<Option<Message>>

    ghost function Abs(): Progress
      reads this
    {
      Progress(DisarmScript(), replies, None)
    }

    ghost predicate Valid()
      reads this
    {
      |replies| == DisarmPos(step)
    }

    constructor ()
      ensures Valid() && Abs() == Begin(DisarmScript())
    {
      step := WaitAck;
      replies := [];
    }

    static function InitialActions(): seq<Action> { [Send(AvrConfigCmd(false), Avr)] }

    predicate IsComplete()
      reads this
    {
      step.Disarmed?
    }

    method FeedMessage(env: Envelope, now: nat) returns (actions: seq<Action>)
      requires Valid()
      modifies this
      ensures Valid()
      ensures Step(Abs(), actions) == Feed(old(Abs()), env, now)
    {
      hide Contains;
      var m := env.message;
      match step
      case WaitAck =>
        if env.src != Avr { return []; }
        if m.Text? || m.DspDebug? || m.CamState? || m.Unknown? { return []; }
        if m.ConfigAck? {
          step := WaitModeReset;
          replies := replies + [Some(m)];
        }
        return [];
      case WaitModeReset =>
        if m.ModeAck? {
          step := WaitStateIdle;
          replies := replies + [Some(m)];
          return [];
        }
        if m.Text? && Contains(m.text, "ARMED CANCELLED") {
          step := WaitStateIdle;
          replies := replies + [Some(m)];
        }
        return [];
      case WaitStateIdle =>
        if m.Text? && Contains(m.text, "System State") {
          step := Disarmed;
          replies := replies + [Some(m)];
        }
        if m.ModeAck? {
          step := Disarmed;
          replies := replies + [Some(m)];
        }
        return [];
      case Disarmed => return [];
    }
  }

  // ---- completion ----------------------------------------------------------------

  /** Both complete exactly when their replies, or signals, occur in the stream in order. */
  lemma CameraAndDisarmComplete(cam: Payload, ticks: seq<Tick>)
    ensures Complete(Run(Begin(CamScript(cam)), ticks).next) <==> OccurIn(CamScript(cam), MessagesIn(ticks))
    ensures Complete(Run(Begin(DisarmScript()), ticks).next) <==> OccurIn(DisarmScript(), MessagesIn(ticks))
  {
    CompletesExactly(CamScript(cam), ticks);
    CompletesExactly(DisarmScript(), ticks);
  }

  // ---- commands and replies, in full ----------------------------------------------

  /** What each reply to the configuration must be. */
  lemma ConfigReplies(s: AvrSettings, i: nat, env: Envelope)
    requires i < |AvrConfigScript(s)|
    ensures Answers(AvrConfigScript(s)[i], env) <==>
              && env.src == Avr
              && if i == 2 * |s.params| + 1 then env.message.ModeSet?
                 else if i == 2 * |s.params| + 3 then env.message.RadarCal?
                 else env.message.ConfigAck?
  {
    EndsOfScript(s);
    var n := 2 * |s.params|;
    if 0 < i <= n {
      var k := (i - 1) / 2;
      ParamsInScript(s, k);
      assert i == 1 + 2 * k || i == 2 + 2 * k;
    }
    hide AvrConfigScript;
  }

  /** The four commands of the camera configuration, and what each reply must be. */
  function CamTrace(cam: Payload): seq<Action> {
    [Send(WriteCamConfig(cam), Pi), Send(CamConfigReq, Pi), Send(WriteCamState(0x01), Pi),
     Send(WriteParam(Param(0x02, Int24(10))), Pi)]
  }

  lemma CameraReplies(i: nat, cam: Payload, env: Envelope)
    requires i < 4
    ensures Answers(CamScript(cam)[i], env) <==>
              env.src == Pi && if i == 1 then env.message.CamConfig? else env.message.ConfigAck?
  {}

  /** The AVR acknowledges the disarm, then two signals come from any bus. */
  lemma DisarmReplies(env: Envelope)
    ensures Answers(DisarmScript()[0], env) <==> env.src == Avr && env.message.ConfigAck?
    ensures Answers(DisarmScript()[1], env) <==>
              env.message.ModeAck? || (env.message.Text? && Contains(env.message.text, "ARMED CANCELLED"))
    ensures Answers(DisarmScript()[2], env) <==>
              env.message.ModeAck? || (env.message.Text? && Contains(env.message.text, "System State"))
  {
    hide Contains;
  }

  /** The camera configuration sends a prefix of its four commands, all when complete; a disarm sends one. */
  lemma CameraAndDisarmSend(cam: Payload, ticks: seq<Tick>)
    ensures var (p, r) := (Begin(CamScript(cam)), Run(Begin(CamScript(cam)), ticks));
            && [CamTrace(cam)[0]] + r.sends <= CamTrace(cam)
            && (Complete(r.next) ==> [CamTrace(cam)[0]] + r.sends == CamTrace(cam))
    ensures DisarmSequencer.InitialActions() == [Send(AvrConfigCmd(false), Avr)]
    ensures Run(Begin(DisarmScript()), ticks).sends == []
  {
    assert forall i | 0 <= i < 4 :: CamScript(cam)[i].send == Some(CamTrace(cam)[i]);
    CommandsOneEach(CamScript(cam), CamTrace(cam));
    RunTrace(CamScript(cam), ticks);
    DisarmCommands();
    RunTrace(DisarmScript(), ticks);
    hide Run, Commands;
    var sends := Run(Begin(DisarmScript()), ticks).sends;
    assert [GATE] + sends <= [GATE];
    assert |[GATE] + sends| == 1 + |sends|;
  }

  lemma DisarmCommands()
    ensures Commands(DisarmScript()) == [GATE]
  {
    var s := DisarmScript();
    assert s[1..] == [s[1], s[2]];
    CommandsOfTwo(s[1], s[2]);
    assert Commands(s) == ToSend(s[0]) + Commands(s[1..]);
  }
}
