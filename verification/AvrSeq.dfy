/** Phase 2 of the handshake: `AvrSequencer` of src/seq.rs, with its two optional calibration replies. */
module AvrSeq {
  import opened Prelude
  import opened Wire
  import opened Protocol
  import opened Script

  datatype AvrSync = AvrSync(
    status: Payload, devInfo: Payload, config: Payload,
    factoryCal: Option<Payload>, ifCal: Option<Payload>, avrConfig: Payload)

  datatype AvrStep =
    | WaitStatus1 | WaitStatus2 | WaitDevInfo1 | WaitDevInfo2 | WaitParam0C | WaitParam0D | WaitConfig
    | WaitFactoryCal | WaitIfCal | WaitAvrConfig | WaitParam64 | WaitTimeSync | Done

  function AvrScript(): (s: seq<Exchange>)
    ensures |s| == 12 && forall i | 0 <= i < 12 :: s[i] == AvrExchange(i)
  {
    seq(12, i requires 0 <= i < 12 => AvrExchange(i))
  }

  function AvrExchange(i: nat): Exchange
    requires i < 12
  {
    match i
    case 0 => Ask(StatusPoll(false), Avr, KAvrStatus)
    case 1 => Ask(StatusPoll(false), Avr, KAvrStatus)
    case 2 => Ask(DevInfoReq, Avr, KDevInfoResp)
    case 3 => Ask(DevInfoReq, Avr, KDevInfoResp)
    case 4 => Ask(ParamReadReq(0x0C), Avr, KParamValue)
    case 5 => Ask(ParamReadReq(0x0D), Avr, KParamValue)
    case 6 => Ask(ConfigQuery, Avr, KConfigResp)
    case 7 => AskOptional(CalDataReq(0x03), Avr, KCalDataResp)
    case 8 => AskOptional(CalParamReq, Avr, KCalParamResp)
    case 9 => Ask(AvrConfigQuery, Avr, KAvrConfigResp)
    case 10 => Ask(ParamReadReq(0x64), Avr, KParamValue)
    case _ => Ask(SyncTime, Avr, KTimeSync)
  }

  function Pos(step: AvrStep): nat {
    match step
    case WaitStatus1 => 0
    case WaitStatus2 => 1
    case WaitDevInfo1 => 2
    case WaitDevInfo2 => 3
    case WaitParam0C => 4
    case WaitParam0D => 5
    case WaitConfig => 6
    case WaitFactoryCal => 7
    case WaitIfCal => 8
    case WaitAvrConfig => 9
    case WaitParam64 => 10
    case WaitTimeSync => 11
    case Done => 12
  }

  /** An optional reply: present only if it arrived before its deadline. */
  function CalIn(r: Option<Message>): Option<Payload> {
    if r.Some? then Some(BodyOf(r.value)) else None
  }

  /** The second status and the second device info are the ones kept. */
  function AvrResult(p: Progress): AvrSync
    requires |p.replies| == 12
  {
    var r := p.replies;
    AvrSync(BodyIn(r[1]), BodyIn(r[3]), BodyIn(r[6]), CalIn(r[7]), CalIn(r[8]), BodyIn(r[9]))
  }

  /** The messages skipped up front are never the awaited reply. */
  lemma SkippedNeverFits(env: Envelope, n: nat)
    requires n < 12 && env.src == Avr
    ensures ShouldSkipWithModeAck(env, Avr) ==> !Fits(AvrExchange(n).awaits, env.message)
    ensures ShouldSkipForCal(env, Avr) && (n == 7 || n == 8) ==> !Fits(AvrExchange(n).awaits, env.message)
  {}

  /** The fields filled before calibration. */
  predicate Kept(r: seq<Option<Message>>, status: Option<Payload>, devInfo: Option<Payload>, config: Option<Payload>) {
    && (|r| > 0 ==> status == Some(BodyIn(r[if |r| == 1 then 0 else 1])))
    && (|r| > 2 ==> devInfo == Some(BodyIn(r[if |r| == 3 then 2 else 3])))
    && (|r| > 6 ==> config == Some(BodyIn(r[6])))
  }

  lemma KeptStays(r: seq<Option<Message>>, x: Option<Message>, status: Option<Payload>, devInfo: Option<Payload>, config: Option<Payload>)
    requires |r| > 6 && Kept(r, status, devInfo, config)
    ensures Kept(r + [x], status, devInfo, config)
  {}

  /** The script from calibration on, and what it accepts. */
  lemma LateExchanges(m: Message)
    ensures AvrExchange(7) == AskOptional(CalDataReq(0x03), Avr, KCalDataResp)
    ensures AvrExchange(8) == AskOptional(CalParamReq, Avr, KCalParamResp)
    ensures AvrExchange(9) == Ask(AvrConfigQuery, Avr, KAvrConfigResp)
    ensures AvrExchange(10) == Ask(ParamReadReq(0x64), Avr, KParamValue)
    ensures AvrExchange(11) == Ask(SyncTime, Avr, KTimeSync)
    ensures Fits(AvrExchange(7).awaits, m) <==> m.CalDataResp?
    ensures Fits(AvrExchange(8).awaits, m) <==> m.CalParamResp?
    ensures Fits(AvrExchange(9).awaits, m) <==> m.AvrConfigResp?
    ensures Fits(AvrExchange(10).awaits, m) <==> m.ParamValue?
    ensures Fits(AvrExchange(11).awaits, m) <==> m.TimeSync?
  {}

  /** What the exchanges before calibration accept. */
  lemma EarlyReplies(n: nat, m: Message)
    requires n < 7
    ensures Fits(AvrExchange(n).awaits, m) <==>
              if n < 2 then m.AvrStatus? else if n < 4 then m.DevInfoResp? else if n < 6 then m.ParamValue? else m.ConfigResp?
  {}

  class AvrSequencer {
    var step: AvrStep
    var status: Option<Payload>
    var devInfo: Option<Payload>
    var config: Option<Payload>
    var factoryCal: Option<Payload>
    var ifCal: Option<Payload>
    var avrConfig: Option<Payload>
    var calDeadline: Option<nat>
    ghost var replies: seq<Option<Message>>

    ghost function Abs(): Progress
      reads this
    {
      Progress(AvrScript(), replies, calDeadline)
    }

    ghost predicate Valid()
      reads this
    {
      Filled() && (calDeadline.Some? <==> step.WaitFactoryCal? || step.WaitIfCal?)
    }

    /** The fields hold what the replies so far have brought. */
    ghost predicate Filled()
      reads this
    {
      && |replies| == Pos(step)
      && Kept(replies, status, devInfo, config)
      && factoryCal == (if |replies| > 7 then CalIn(replies[7]) else None)
      && ifCal == (if |replies| > 8 then CalIn(replies[8]) else None)
      && (|replies| > 9 ==> avrConfig == Some(BodyIn(replies[9])))
    }

    constructor ()
      ensures Valid() && Abs() == Begin(AvrScript())
    {
      step := WaitStatus1;
      status, devInfo, config, factoryCal, ifCal, avrConfig := None, None, None, None, None, None;
      calDeadline := None;
      replies := [];
    }

    static function InitialActions(): seq<Action> { [Send(StatusPoll(false), Avr)] }

    predicate IsComplete()
      reads this
    {
      step.Done?
    }

    method CheckCalTimeout(now: nat) returns (actions: seq<Action>)
      requires Valid()
      modifies this
      ensures Valid()
      ensures Step(Abs(), actions) == Expire(old(Abs()), now)
    {
      hide Kept, BodyIn, CalIn, AvrScript, Fits;
      if calDeadline.Some? && now >= calDeadline.value {
        calDeadline := None;
        actions := AdvancePastCal(now);
      } else {
        actions := [];
      }
    }

    /** Gives up on the current calibration reply; the other steps have none to give up on and stay. */
    method AdvancePastCal(now: nat) returns (actions: seq<Action>)
      requires Filled()
      modifies this
      ensures Filled() && (old(step.WaitFactoryCal? || step.WaitIfCal?) ==> Valid())
      ensures Step(Abs(), actions)
           == if old(step.WaitFactoryCal? || step.WaitIfCal?) then Advance(old(Abs()), None, now) else Step(old(Abs()), [])
    {
      hide Kept, BodyIn, AvrScript;
      if |replies| > 6 { KeptStays(replies, None, status, devInfo, config); }
      match step
      case WaitFactoryCal =>
        step := WaitIfCal;
        calDeadline := Some(now + TIMEOUT);
        replies := replies + [None];
        return [Send(CalParamReq, Avr)];
      case WaitIfCal =>
        step := WaitAvrConfig;
        calDeadline := None;
        replies := replies + [None];
        return [Send(AvrConfigQuery, Avr)];
      case _ => return [];
    }

    method FeedMessage(env: Envelope, now: nat) returns (actions: seq<Action>)
      requires Valid()
      modifies this
      ensures Valid()
      ensures Step(Abs(), actions) == Feed(old(Abs()), env, now)
    {
      FeedOnBus(Abs(), Avr, env, now);
      if |replies| < 12 && env.src == Avr { SkippedNeverFits(env, |replies|); }
      hide Feed, AvrScript, Fits, Is, Kept, BodyIn, CalIn, AvrExchange, Advance;
      if step.WaitFactoryCal? || step.WaitIfCal? {
        if ShouldSkipForCal(env, Avr) { return []; }
        actions := FeedCal(env.message, now);
      } else {
        if ShouldSkipWithModeAck(env, Avr) || step.Done? { return []; }
        if Pos(step) < 4 {
          actions := FeedIdentity(env.message, now);
        } else if Pos(step) < 7 {
          actions := FeedParams(env.message, now);
        } else {
          actions := FeedFinish(env.message, now);
        }
      }
    }

    method FeedIdentity(m: Message, now: nat) returns (actions: seq<Action>)
      requires Valid() && Pos(step) < 4
      modifies this
      ensures Valid()
      ensures Step(Abs(), actions) == Answer(old(Abs()), m, now)
    {
      EarlyReplies(|replies|, m);
      hide AvrScript, CalIn, Fits, Is;
      match step
      case WaitStatus1 =>
        if !m.AvrStatus? { return []; }
        status := Some(m.body);
        step := WaitStatus2;
        replies := replies + [Some(m)];
        return [Send(StatusPoll(false), Avr)];
      case WaitStatus2 =>
        if !m.AvrStatus? { return []; }
        status := Some(m.body);
        step := WaitDevInfo1;
        replies := replies + [Some(m)];
        return [Send(DevInfoReq, Avr)];
      case WaitDevInfo1 =>
        if !m.DevInfoResp? { return []; }
        devInfo := Some(m.body);
        step := WaitDevInfo2;
        replies := replies + [Some(m)];
        return [Send(DevInfoReq, Avr)];
      case WaitDevInfo2 =>
        if !m.DevInfoResp? { return []; }
        devInfo := Some(m.body);
        step := WaitParam0C;
        replies := replies + [Some(m)];
        return [Send(ParamReadReq(0x0C), Avr)];
    }

    method FeedParams(m: Message, now: nat) returns (actions: seq<Action>)
      requires Valid() && 4 <= Pos(step) < 7
      modifies this
      ensures Valid()
      ensures Step(Abs(), actions) == Answer(old(Abs()), m, now)
    {
      EarlyReplies(|replies|, m);
      hide AvrScript, CalIn, Fits, Is;
      match step
      case WaitParam0C =>
        if !m.ParamValue? { return []; }
        step := WaitParam0D;
        replies := replies + [Some(m)];
        return [Send(ParamReadReq(0x0D), Avr)];
      case WaitParam0D =>
        if !m.ParamValue? { return []; }
        step := WaitConfig;
        replies := replies + [Some(m)];
        return [Send(ConfigQuery, Avr)];
      case WaitConfig =>
        if !m.ConfigResp? { return []; }
        config := Some(m.body);
        step := WaitFactoryCal;
        calDeadline := Some(now + TIMEOUT);
        replies := replies + [Some(m)];
        return [Send(CalDataReq(0x03), Avr)];
    }

    method FeedCal(m: Message, now: nat) returns (actions: seq<Action>)
      requires Valid() && 7 <= Pos(step) < 9
      modifies this
      ensures Valid()
      ensures Step(Abs(), actions) == Answer(old(Abs()), m, now)
    {
      hide Kept, AvrScript, AvrExchange, Fits, Is;
      LateExchanges(m);
      KeptStays(replies, Some(m), status, devInfo, config);
      match step
      case WaitFactoryCal =>
        if !m.CalDataResp? { return []; }
        factoryCal := Some(m.body);
        step := WaitIfCal;
        calDeadline := Some(now + TIMEOUT);
        replies := replies + [Some(m)];
        return [Send(CalParamReq, Avr)];
      case WaitIfCal =>
        if !m.CalParamResp? { return []; }
        ifCal := Some(m.body);
        step := WaitAvrConfig;
        calDeadline := None;
        replies := replies + [Some(m)];
        return [Send(AvrConfigQuery, Avr)];
    }

    method FeedFinish(m: Message, now: nat) returns (actions: seq<Action>)
      requires Valid() && 9 <= Pos(step) < 12
      modifies this
      ensures Valid()
      ensures Step(Abs(), actions) == Answer(old(Abs()), m, now)
    {
      hide Kept, AvrScript, AvrExchange, CalIn, Fits, Is;
      LateExchanges(m);
      KeptStays(replies, Some(m), status, devInfo, config);
      match step
      case WaitAvrConfig =>
        if !m.AvrConfigResp? { return []; }
        avrConfig := Some(m.body);
        step := WaitParam64;
        replies := replies + [Some(m)];
        return [Send(ParamReadReq(0x64), Avr)];
      case WaitParam64 =>
        if !m.ParamValue? { return []; }
        step := WaitTimeSync;
        replies := replies + [Some(m)];
        return [Send(SyncTime, Avr)];
      case WaitTimeSync =>
        if !m.TimeSync? { return []; }
        step := Done;
        replies := replies + [Some(m)];
        return [];
    }

    method IntoResult() returns (r: AvrSync)
      requires Valid() && IsComplete()
      ensures r == AvrResult(Abs())
    {
      assert Kept(replies, status, devInfo, config);
      r := AvrSync(status.value, devInfo.value, config.value, factoryCal, ifCal, avrConfig.value);
    }
  }

  // ---- timeouts change results only --------------------------------------------

  /** The twelve commands of the phase. */
  function AvrTrace(): seq<Action> {
    [Send(StatusPoll(false), Avr), Send(StatusPoll(false), Avr), Send(DevInfoReq, Avr), Send(DevInfoReq, Avr),
     Send(ParamReadReq(0x0C), Avr), Send(ParamReadReq(0x0D), Avr), Send(ConfigQuery, Avr),
     Send(CalDataReq(0x03), Avr), Send(CalParamReq, Avr), Send(AvrConfigQuery, Avr),
     Send(ParamReadReq(0x64), Avr), Send(SyncTime, Avr)]
  }

  lemma TraceOfScript()
    ensures Commands(AvrScript()) == AvrTrace()
  {
    forall i | 0 <= i < 12 ensures AvrScript()[i].send == Some(AvrTrace()[i]) {}
    hide AvrScript, AvrTrace, AvrExchange;
    CommandsOneEach(AvrScript(), AvrTrace());
  }

  /** Every reply but the two calibration ones is there. */
  ghost predicate OnlyCalMayBeMissing(p: Progress) {
    p.script == AvrScript() && |p.replies| == 12
    && forall i | 0 <= i < 12 && i != 7 && i != 8 :: p.replies[i].Some?
  }

  /**
   * Whatever the interleaving of replies and calibration timeouts, what is sent is a prefix of the same
   * twelve commands, all twelve when the phase completes; only the calibration results can differ.
   */
  lemma TimeoutsInvisible(ticks: seq<Tick>)
    ensures AvrSequencer.InitialActions() + Run(Begin(AvrScript()), ticks).sends <= AvrTrace()
    ensures Complete(Run(Begin(AvrScript()), ticks).next) ==>
              && AvrSequencer.InitialActions() + Run(Begin(AvrScript()), ticks).sends == AvrTrace()
              && OnlyCalMayBeMissing(Run(Begin(AvrScript()), ticks).next)
  {
    hide Run, Commands, AvrTrace, Sent;
    var p := Begin(AvrScript());
    var r := Run(p, ticks);
    RunTrace(AvrScript(), ticks);
    RunKeepsTrace(p, ticks);
    TraceOfScript();
    if Complete(r.next) {
      forall i | 0 <= i < 12 && i != 7 && i != 8 ensures r.next.replies[i].Some? {
        assert ReplyFits(r.next.script[i], r.next.replies[i]);
      }
    }
  }

  /**
   * Over rounds in time order the phase completes exactly when they bring its ten required replies in order,
   * and each of the two calibration replies is answered, or waited for two seconds, in between.
   */
  lemma SyncsExactly(start: nat, ticks: seq<Tick>)
    requires InTimeOrder(start, ticks)
    ensures Complete(Run(Begin(AvrScript()), ticks).next) <==> PassedIn(AvrScript(), start, ticks)
  {
    CompletesInTimeExactly(AvrScript(), start, ticks);
  }

  // ---- where the result comes from -------------------------------------------------

  /** Round i brought this message of the AVR. */
  predicate AvrSaid(ticks: seq<Tick>, i: nat, m: Message) {
    i < |ticks| && ticks[i].env == Some(Envelope(Avr, m))
  }

  /** Ten messages of the AVR in order, and the rounds in which they came. */
  predicate Required(ticks: seq<Tick>, at: seq<nat>, m: seq<Message>) {
    && |at| == |m| == 12
    && (forall j, k | 0 <= j < k < 12 :: at[j] <= at[k])
    && (forall j, k | 0 <= j < k < 12 && j != 7 && j != 8 :: at[j] < at[k])
    && (forall k | 0 <= k < 12 && k != 7 && k != 8 :: AvrSaid(ticks, at[k], m[k]))
    && m[0].AvrStatus? && m[1].AvrStatus? && m[2].DevInfoResp? && m[3].DevInfoResp? && m[4].ParamValue?
    && m[5].ParamValue? && m[6].ConfigResp? && m[9].AvrConfigResp? && m[10].ParamValue? && m[11].TimeSync?
  }

  /** The calibration of exchange k: from a message less than two seconds after the exchange before, or none by then. */
  predicate Calibration(ticks: seq<Tick>, at: seq<nat>, k: nat, cal: Option<Payload>) {
    && 0 < k < |at| && at[k - 1] < |ticks| && at[k] < |ticks|
    && (cal.Some? <==> ticks[at[k]].now < ticks[at[k - 1]].now + 2000)
    && (cal.Some? ==> at[k - 1] <= at[k]
                      && AvrSaid(ticks, at[k], if k == 7 then CalDataResp(cal.value) else CalParamResp(cal.value)))
  }

  /**
   * The result of a completed phase: the second status, the second device information, the configuration and
   * the AVR configuration that the AVR sent, and each calibration if it came in time.
   */
  lemma ResultHoldsReplies(ticks: seq<Tick>) returns (at: seq<nat>, m: seq<Message>)
    requires Complete(Run(Begin(AvrScript()), ticks).next)
    ensures |Run(Begin(AvrScript()), ticks).next.replies| == 12
    ensures var r := AvrResult(Run(Begin(AvrScript()), ticks).next);
            && Required(ticks, at, m)
            && r.status == m[1].body && r.devInfo == m[3].body && r.config == m[6].body && r.avrConfig == m[9].body
            && Calibration(ticks, at, 7, r.factoryCal) && Calibration(ticks, at, 8, r.ifCal)
  {
    AvrStartable();
    hide Run, FromRounds, Fits, AvrScript, AvrExchange, AvrSaid, Calibration, Good, NoneOptional,
      AvrResult, Complete, AskedLast, Startable;
    at := RepliesFromRounds(AvrScript(), ticks);
    var p := Run(Begin(AvrScript()), ticks).next;
    TwelveReplies(p, ticks, at);
    m := seq(12, k requires 0 <= k < 12 => if p.replies[k].Some? then p.replies[k].value else ModeAck);
    forall k | 0 <= k < 12 && p.replies[k].Some?
      ensures AvrSaid(ticks, at[k], m[k]) && Fits(AvrExchange(k).awaits, m[k])
    {
      ReplySaid(p, ticks, at, k);
    }
    RequiredReplies(p, ticks, at);
    RequiredKinds(p, m);
    CalibrationReply(p, ticks, at, 7);
    CalibrationReply(p, ticks, at, 8);
  }

  lemma AvrStartable()
    ensures Startable(AvrScript())
  {}

  lemma TwelveReplies(p: Progress, ticks: seq<Tick>, at: seq<nat>)
    requires Good(p) && Complete(p) && p.script == AvrScript() && FromRounds(p, ticks, at)
    ensures |p.replies| == |at| == 12
  {
    AsManyRounds(p, ticks, at);
    hide FromRounds, Good;
  }

  lemma ReplySaid(p: Progress, ticks: seq<Tick>, at: seq<nat>, k: nat)
    requires p.script == AvrScript() && |p.replies| == 12 && FromRounds(p, ticks, at) && k < 12 && p.replies[k].Some?
    ensures AvrSaid(ticks, at[k], p.replies[k].value) && Fits(AvrExchange(k).awaits, p.replies[k].value)
  {
    assert AnsweredAt(p.script[k], ticks, at[k], p.replies[k].value) && p.script[k] == AvrExchange(k);
    hide Fits, FromRounds;
  }

  /** The required replies are there, in rounds of their own. */
  lemma RequiredReplies(p: Progress, ticks: seq<Tick>, at: seq<nat>)
    requires Good(p) && p.script == AvrScript() && |p.replies| == 12 && FromRounds(p, ticks, at)
    ensures forall k | 0 <= k < 12 && k != 7 && k != 8 :: p.replies[k].Some?
    ensures forall j, k | 0 <= j < k < 12 :: at[j] <= at[k]
    ensures forall j, k | 0 <= j < k < 12 && j != 7 && j != 8 :: at[j] < at[k]
  {
    hide Fits;
    forall k | 0 <= k < 12 && k != 7 && k != 8 ensures p.replies[k].Some? {
      assert ReplyFits(p.script[k], p.replies[k]) && p.script[k] == AvrExchange(k);
    }
  }

  lemma RequiredKinds(p: Progress, m: seq<Message>)
    requires |p.replies| == |m| == 12
    requires forall k | 0 <= k < 12 && k != 7 && k != 8 :: p.replies[k].Some?
    requires forall k | 0 <= k < 12 && p.replies[k].Some? :: m[k] == p.replies[k].value && Fits(AvrExchange(k).awaits, m[k])
    ensures m[0].AvrStatus? && m[1].AvrStatus? && m[2].DevInfoResp? && m[3].DevInfoResp? && m[4].ParamValue?
    ensures m[5].ParamValue? && m[6].ConfigResp? && m[9].AvrConfigResp? && m[10].ParamValue? && m[11].TimeSync?
    ensures var r := AvrResult(p);
            r.status == m[1].body && r.devInfo == m[3].body && r.config == m[6].body && r.avrConfig == m[9].body
  {
    forall k | 0 <= k < 7 { EarlyReplies(k, m[k]); }
    LateExchanges(m[9]);
    LateExchanges(m[10]);
    LateExchanges(m[11]);
    hide Fits, AvrExchange;
  }

  lemma CalibrationReply(p: Progress, ticks: seq<Tick>, at: seq<nat>, k: nat)
    requires p.script == AvrScript() && |p.replies| == 12 && FromRounds(p, ticks, at) && (k == 7 || k == 8)
    ensures Calibration(ticks, at, k, if k == 7 then AvrResult(p).factoryCal else AvrResult(p).ifCal)
  {
    assert p.script[k] == AvrExchange(k) && p.script[k].optional;
    assert p.replies[k].None? <==> ticks[at[k]].now >= ticks[at[k - 1]].now + 2000;
    assert at[k - 1] < |ticks| && at[k] < |ticks| && at[k - 1] <= at[k];
    if p.replies[k].Some? {
      ReplySaid(p, ticks, at, k);
      LateExchanges(p.replies[k].value);
    }
    hide FromRounds, Fits, AvrScript, AvrExchange;
  }
}
