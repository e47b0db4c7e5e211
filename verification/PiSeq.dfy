/** Phase 3 of the handshake: `PiSequencer` of src/seq.rs. */
module PiSeq {
  import opened Prelude
  import opened Wire
  import opened Protocol
  import opened Script

  datatype PiSync = PiSync(devInfo: Payload, camConfig: Payload, ssid: string, password: string)

  datatype PiStep =
    | WaitStatus | WaitDevInfo | WaitParam0A | WaitCamConfig1 | WaitCamConfig2 | WaitNetConfig | WaitNetConfigPw
    | WaitParams(ids: seq<byte>, idx: nat)
    | Done

  /** The parameters read at the end of the phase, in order. */
  function ParamIds(): (ids: seq<byte>)
    ensures |ids| == 9
  {
    [0x01, 0x07, 0x08, 0x09, 0x06, 0x0B, 0x03, 0x04, 0x05]
  }

  function PiScript(): (s: seq<Exchange>)
    ensures |s| == 16 && forall i | 0 <= i < 16 :: s[i] == PiExchange(i)
  {
    seq(16, i requires 0 <= i < 16 => PiExchange(i))
  }

  function PiExchange(i: nat): Exchange
    requires i < 16
  {
    match i
    case 0 => Ask(StatusPoll(true), Pi, KPiStatus)
    case 1 => Ask(DevInfoReq, Pi, KDevInfoResp)
    case 2 => Ask(ParamReadReq(0x0A), Pi, KParamValue)
    case 3 => Ask(CamConfigReq, Pi, KCamConfig)
    case 4 => Ask(CamConfigReq, Pi, KCamConfig)
    case 5 => Ask(NetConfigReq(false), Pi, KNetConfigResp)
    case 6 => Ask(NetConfigReq(true), Pi, KNetConfigResp)
    case _ => Ask(ParamReadReq(ParamIds()[i - 7]), Pi, KParamValue)
  }

  function Pos(step: PiStep): nat {
    match step
    case WaitStatus => 0
    case WaitDevInfo => 1
    case WaitParam0A => 2
    case WaitCamConfig1 => 3
    case WaitCamConfig2 => 4
    case WaitNetConfig => 5
    case WaitNetConfigPw => 6
    case WaitParams(_, idx) => 7 + idx
    case Done => 16
  }

  function TextIn(r: Option<Message>): string {
    if r.Some? && r.value.NetConfigResp? then r.value.text else ""
  }

  /** The text before the first NUL, and what follows it: the credentials as the device sends them. */
  function SplitAtNul(text: string): (r: (string, string))
    ensures '\0' !in r.0
    ensures '\0' in text ==> text == r.0 + ['\0'] + r.1
    ensures '\0' !in text ==> r == (text, "")
  {
    if text == "" then ("", "")
    else if text[0] == '\0' then ("", text[1..])
    else
      var rest := SplitAtNul(text[1..]);
      assert [text[0]] + text[1..] == text;
      ([text[0]] + rest.0, rest.1)
  }

  function PiResult(p: Progress): PiSync
    requires |p.replies| == 16
  {
    var r := p.replies;
    PiSync(BodyIn(r[1]), BodyIn(r[4]), SplitAtNul(TextIn(r[6])).0, SplitAtNul(TextIn(r[6])).1)
  }

  lemma SkippedNeverFits(env: Envelope, n: nat)
    requires n < 16 && env.src == Pi
    ensures ShouldSkipWithModeAck(env, Pi) ==> !Fits(PiExchange(n).awaits, env.message)
  {}

  /** What exchange n accepts. */
  lemma AwaitedAt(n: nat, m: Message)
    requires n < 16
    ensures Fits(PiExchange(n).awaits, m) <==>
              if n == 0 then m.PiStatus? else if n == 1 then m.DevInfoResp? else if n == 3 || n == 4 then m.CamConfig?
              else if n == 5 || n == 6 then m.NetConfigResp? else m.ParamValue?
  {}

  /** A parameter read takes any parameter value, and the next one in the list follows. */
  lemma ParamAnswered(p: Progress, m: Message, now: nat)
    requires p.script == PiScript() && p.deadline.None? && 7 <= |p.replies| < 16
    ensures Answer(p, m, now) ==
              if !m.ParamValue? then Step(p, [])
              else Step(p.(replies := p.replies + [Some(m)]),
                        if |p.replies| < 15 then [Send(ParamReadReq(ParamIds()[|p.replies| - 6]), Pi)] else [])
  {
    assert p.script[|p.replies|] == PiExchange(|p.replies|);
    if |p.replies| < 15 { assert p.script[|p.replies| + 1] == PiExchange(|p.replies| + 1); }
    hide PiScript;
  }

  class PiSequencer {
    var step: PiStep
    var devInfo: Option<Payload>
    var camConfig: Option<Payload>
    var ssid: string
    var password: string
    ghost var replies: seq<Option<Message>>

    ghost function Abs(): Progress
      reads this
    {
      Progress(PiScript(), replies, None)
    }

    ghost predicate Valid()
      reads this
    {
      && |replies| == Pos(step)
      && (step.WaitParams? ==> step.ids == ParamIds() && step.idx < 9)
      && (|replies| > 1 ==> devInfo == Some(BodyIn(replies[1])))
      && (|replies| > 4 ==> camConfig == Some(BodyIn(replies[4])))
      && (|replies| > 6 ==> (ssid, password) == SplitAtNul(TextIn(replies[6])))
    }

    constructor ()
      ensures Valid() && Abs() == Begin(PiScript())
    {
      step := WaitStatus;
      devInfo, camConfig, ssid, password := None, None, "", "";
      replies := [];
    }

    static function InitialActions(): seq<Action> { [Send(StatusPoll(true), Pi)] }

    predicate IsComplete()
      reads this
    {
      step.Done?
    }

    method FeedMessage(env: Envelope, now: nat) returns (actions: seq<Action>)
      requires Valid()
      modifies this
      ensures Valid()
      ensures Step(Abs(), actions) == Feed(old(Abs()), env, now)
    {
      FeedOnBus(Abs(), Pi, env, now);
      if |replies| < 16 && env.src == Pi { SkippedNeverFits(env, |replies|); }
      hide Feed, PiScript, Fits, Is, BodyIn, SplitAtNul, PiExchange, Advance;
      if ShouldSkipWithModeAck(env, Pi) || step.Done? { return []; }
      if Pos(step) < 3 {
        actions := FeedDevice(env.message, now);
      } else if Pos(step) < 5 {
        actions := FeedCamera(env.message, now);
      } else if Pos(step) < 7 {
        actions := FeedNetwork(env.message, now);
      } else {
        actions := FeedParams(env.message, now);
      }
    }

    method FeedDevice(m: Message, now: nat) returns (actions: seq<Action>)
      requires Valid() && Pos(step) < 3
      modifies this
      ensures Valid()
      ensures Step(Abs(), actions) == Answer(old(Abs()), m, now)
    {
      AwaitedAt(|replies|, m);
      hide PiScript, SplitAtNul, Fits, Is;
      match step
      case WaitStatus =>
        if !m.PiStatus? { return []; }
        step := WaitDevInfo;
        replies := replies + [Some(m)];
        return [Send(DevInfoReq, Pi)];
      case WaitDevInfo =>
        if !m.DevInfoResp? { return []; }
        devInfo := Some(m.body);
        step := WaitParam0A;
        replies := replies + [Some(m)];
        return [Send(ParamReadReq(0x0A), Pi)];
      case WaitParam0A =>
        if !m.ParamValue? { return []; }
        step := WaitCamConfig1;
        replies := replies + [Some(m)];
        return [Send(CamConfigReq, Pi)];
    }

    method FeedCamera(m: Message, now: nat) returns (actions: seq<Action>)
      requires Valid() && 3 <= Pos(step) < 5
      modifies this
      ensures Valid()
      ensures Step(Abs(), actions) == Answer(old(Abs()), m, now)
    {
      AwaitedAt(|replies|, m);
      hide PiScript, SplitAtNul, Fits, Is;
      match step
      case WaitCamConfig1 =>
        if !m.CamConfig? { return []; }
        step := WaitCamConfig2;
        replies := replies + [Some(m)];
        return [Send(CamConfigReq, Pi)];
      case WaitCamConfig2 =>
        if !m.CamConfig? { return []; }
        camConfig := Some(m.body);
        step := WaitNetConfig;
        replies := replies + [Some(m)];
        return [Send(NetConfigReq(false), Pi)];
    }

    method FeedNetwork(m: Message, now: nat) returns (actions: seq<Action>)
      requires Valid() && 5 <= Pos(step) < 7
      modifies this
      ensures Valid()
      ensures Step(Abs(), actions) == Answer(old(Abs()), m, now)
    {
      AwaitedAt(|replies|, m);
      hide PiScript, SplitAtNul, Fits, Is;
      match step
      case WaitNetConfig =>
        if !m.NetConfigResp? { return []; }
        step := WaitNetConfigPw;
        replies := replies + [Some(m)];
        return [Send(NetConfigReq(true), Pi)];
      case WaitNetConfigPw =>
        if !m.NetConfigResp? { return []; }
        var parts := SplitAtNul(m.text);
        ssid := parts.0;
        password := parts.1;
        step := WaitParams(ParamIds(), 0);
        replies := replies + [Some(m)];
        return [Send(ParamReadReq(0x01), Pi)];
    }

    method FeedParams(m: Message, now: nat) returns (actions: seq<Action>)
      requires Valid() && step.WaitParams?
      modifies this
      ensures Valid()
      ensures Step(Abs(), actions) == Answer(old(Abs()), m, now)
    {
      ParamAnswered(Abs(), m, now);
      assert |ParamIds()| == 9;
      hide ParamIds, PiScript, Answer, SplitAtNul, BodyIn, TextIn;
      if !m.ParamValue? { return []; }
      var idx := step.idx + 1;
      replies := replies + [Some(m)];
      if idx >= |step.ids| {
        step := Done;
        return [];
      }
      step := WaitParams(step.ids, idx);
      return [Send(ParamReadReq(step.ids[idx]), Pi)];
    }

    method IntoResult() returns (r: PiSync)
      requires Valid() && IsComplete()
      ensures r == PiResult(Abs())
    {
      r := PiSync(devInfo.value, camConfig.value, ssid, password);
    }
  }

  /** The phase completes exactly when its sixteen replies occur in the stream, in order. */
  lemma SyncsExactly(ticks: seq<Tick>)
    ensures Complete(Run(Begin(PiScript()), ticks).next) <==> OccurIn(PiScript(), MessagesIn(ticks))
  {
    CompletesExactly(PiScript(), ticks);
  }

  // ---- where the result comes from -------------------------------------------------

  /** The sixteen commands of the phase. */
  function PiTrace(): seq<Action> {
    [Send(StatusPoll(true), Pi), Send(DevInfoReq, Pi), Send(ParamReadReq(0x0A), Pi), Send(CamConfigReq, Pi),
     Send(CamConfigReq, Pi), Send(NetConfigReq(false), Pi), Send(NetConfigReq(true), Pi),
     Send(ParamReadReq(0x01), Pi), Send(ParamReadReq(0x07), Pi), Send(ParamReadReq(0x08), Pi),
     Send(ParamReadReq(0x09), Pi), Send(ParamReadReq(0x06), Pi), Send(ParamReadReq(0x0B), Pi),
     Send(ParamReadReq(0x03), Pi), Send(ParamReadReq(0x04), Pi), Send(ParamReadReq(0x05), Pi)]
  }

  /** Sixteen messages, and what the result holds of them. */
  predicate Holds(r: PiSync, m: seq<Message>) {
    && |m| == 16 && m[0].PiStatus? && m[1].DevInfoResp? && m[2].ParamValue? && m[3].CamConfig? && m[4].CamConfig?
    && m[5].NetConfigResp? && m[6].NetConfigResp? && (forall k | 7 <= k < 16 :: m[k].ParamValue?)
    && r == PiSync(m[1].body, m[4].body, SplitAtNul(m[6].text).0, SplitAtNul(m[6].text).1)
  }

  lemma HoldsReplies(p: Progress, m: seq<Message>)
    requires p.script == PiScript() && |p.replies| == 16 && RepliesAre(p, m)
    ensures Holds(PiResult(p), m)
  {
    hide Fits, SplitAtNul, PiExchange;
    forall k | 0 <= k < 16 ensures p.replies[k] == Some(m[k]) && Fits(PiExchange(k).awaits, m[k]) {
      assert PiScript()[k] == PiExchange(k);
    }
    forall k | 0 <= k < 16 { AwaitedAt(k, m[k]); }
  }

  /**
   * The result of a completed phase holds the contents of sixteen messages of the Pi, each the reply to the
   * last command sent before it: the second camera configuration, and the credentials asked for last.
   */
  lemma ResultHoldsReplies(ticks: seq<Tick>) returns (at: seq<nat>)
    requires Complete(Run(Begin(PiScript()), ticks).next)
    ensures |Run(Begin(PiScript()), ticks).next.replies| == 16
    ensures MessagesFrom(Pi, ticks, at) && Holds(PiResult(Run(Begin(PiScript()), ticks).next), MessagesAt(Pi, ticks, at))
    ensures forall k | 0 <= k < 16 :: at[k] <= |ticks| && SentBefore(PiScript(), ticks, at[k]) == PiTrace()[..k + 1]
  {
    PiSends();
    assert forall i | 0 <= i < 16 :: OnBus(PiScript()[i], Pi) && !PiScript()[i].optional;
    hide Run, PiTrace, PiExchange, Holds, PiResult, MessagesFrom, RepliesAre;
    at := CompletedPhase(PiScript(), PiTrace(), Pi, ticks);
    HoldsReplies(Run(Begin(PiScript()), ticks).next, MessagesAt(Pi, ticks, at));
  }

  lemma PiSends()
    ensures forall i | 0 <= i < 16 :: PiScript()[i].send == Some(PiTrace()[i])
  {
    forall i | 0 <= i < 16 ensures PiExchange(i).send == Some(PiTrace()[i]) {}
  }

  /** Whatever comes, a prefix of the sixteen commands is sent, and all of them once the phase is complete. */
  lemma SendsTrace(ticks: seq<Tick>)
    ensures SentBefore(PiScript(), ticks, |ticks|) <= PiTrace()
    ensures Complete(Run(Begin(PiScript()), ticks).next) ==> SentBefore(PiScript(), ticks, |ticks|) == PiTrace()
  {
    assert ticks[..|ticks|] == ticks;
    PiSends();
    CommandsOneEach(PiScript(), PiTrace());
    RunTrace(PiScript(), ticks);
    hide Run, Commands, PiTrace, ParamIds;
  }
}
