/** Phase 1 of the handshake: `DspSequencer` of src/seq.rs. */
module DspSeq {
  import opened Prelude
  import opened Wire
  import opened Protocol
  import opened Script

  datatype DspSync = DspSync(
    status: DspStatusData, hwInfo: Payload, devInfo: Payload, prodInfo: seq<Payload>, config: Payload)

  datatype DspStep =
    | WaitStatus | WaitDspQuery | WaitDevInfo | WaitProdInfo0 | WaitProdInfo1 | WaitProdInfo2 | WaitConfig | Done

  function DspScript(): (s: seq<Exchange>)
    ensures |s| == 7 && forall i | 0 <= i < 7 :: s[i] == DspExchange(i)
  {
    seq(7, i requires 0 <= i < 7 => DspExchange(i))
  }

  function DspExchange(i: nat): Exchange
    requires i < 7
  {
    match i
    case 0 => Ask(StatusPoll(false), Dsp, KDspStatus)
    case 1 => Ask(DspQuery, Dsp, KDspQueryResp)
    case 2 => Ask(DevInfoReq, Dsp, KDevInfoResp)
    case 3 => Ask(ProdInfoReq(0x00), Dsp, KProdInfoResp)
    case 4 => Ask(ProdInfoReq(0x08), Dsp, KProdInfoResp)
    case 5 => Ask(ProdInfoReq(0x09), Dsp, KProdInfoResp)
    case _ => Ask(ConfigQuery, Dsp, KConfigResp)
  }

  function Pos(step: DspStep): nat {
    match step
    case WaitStatus => 0
    case WaitDspQuery => 1
    case WaitDevInfo => 2
    case WaitProdInfo0 => 3
    case WaitProdInfo1 => 4
    case WaitProdInfo2 => 5
    case WaitConfig => 6
    case Done => 7
  }

  function ProdInfoIn(r: seq<Option<Message>>): seq<Payload> {
    if |r| <= 3 then []
    else if |r| == 4 then [BodyIn(r[3])]
    else if |r| == 5 then [BodyIn(r[3]), BodyIn(r[4])]
    else [BodyIn(r[3]), BodyIn(r[4]), BodyIn(r[5])]
  }

  /** What the handshake keeps of the replies. */
  function DspResult(p: Progress): DspSync
    requires |p.replies| == 7
  {
    var r := p.replies;
    DspSync(StatusIn(r[0]), BodyIn(r[1]), BodyIn(r[2]), [BodyIn(r[3]), BodyIn(r[4]), BodyIn(r[5])], BodyIn(r[6]))
  }

  /** The messages skipped up front are never the awaited reply. */
  lemma SkippedNeverFits(env: Envelope, bus: BusAddr)
    ensures ShouldSkipWithModeAck(env, bus) && env.src == bus ==>
      forall n: nat | n < 7 :: !Fits(DspExchange(n).awaits, env.message)
  {}

  /** The fields filled by the first three replies. */
  predicate Kept(r: seq<Option<Message>>, status: Option<DspStatusData>, hwInfo: Option<Payload>, devInfo: Option<Payload>) {
    && (|r| > 0 ==> status == Some(StatusIn(r[0])))
    && (|r| > 1 ==> hwInfo == Some(BodyIn(r[1])))
    && (|r| > 2 ==> devInfo == Some(BodyIn(r[2])))
  }

  lemma KeptStays(r: seq<Option<Message>>, x: Option<Message>,
        status: Option<DspStatusData>, hwInfo: Option<Payload>, devInfo: Option<Payload>)
    requires |r| > 2 && Kept(r, status, hwInfo, devInfo)
    ensures Kept(r + [x], status, hwInfo, devInfo)
  {}

  /** The script from product information on. */
  lemma LateExchanges(m: Message)
    ensures DspExchange(3) == Ask(ProdInfoReq(0x00), Dsp, KProdInfoResp)
    ensures DspExchange(4) == Ask(ProdInfoReq(0x08), Dsp, KProdInfoResp)
    ensures DspExchange(5) == Ask(ProdInfoReq(0x09), Dsp, KProdInfoResp)
    ensures DspExchange(6) == Ask(ConfigQuery, Dsp, KConfigResp)
    ensures forall n: nat | 3 <= n < 6 :: Fits(DspExchange(n).awaits, m) <==> m.ProdInfoResp?
    ensures Fits(DspExchange(6).awaits, m) <==> m.ConfigResp?
  {}

  /** What the exchanges before accept. */
  lemma EarlyExchanges(a: Message, b: Message, c: Message)
    ensures Fits(DspExchange(0).awaits, a) <==> a.DspStatus?
    ensures Fits(DspExchange(1).awaits, b) <==> b.DspQueryResp?
    ensures Fits(DspExchange(2).awaits, c) <==> c.DevInfoResp?
  {}

  class DspSequencer {
    var step: DspStep
    var status: Option<DspStatusData>
    var hwInfo: Option<Payload>
    var devInfo: Option<Payload>
    var prodInfo: seq<Payload>
    var config: Option<Payload>
    ghost var replies: seq<Option<Message>>

    ghost function Abs(): Progress
      reads this
    {
      Progress(DspScript(), replies, None)
    }

    ghost predicate Valid()
      reads this
    {
      && |replies| == Pos(step)
      && Kept(replies, status, hwInfo, devInfo)
      && prodInfo == ProdInfoIn(replies)
      && (|replies| > 6 ==> config == Some(BodyIn(replies[6])))
    }

    constructor ()
      ensures Valid() && Abs() == Begin(DspScript())
    {
      step := WaitStatus;
      status, hwInfo, devInfo, prodInfo, config := None, None, None, [], None;
      replies := [];
    }

    static function InitialActions(): seq<Action> { [Send(StatusPoll(false), Dsp)] }

    predicate IsComplete()
      reads this
    {
      step.Done?
    }

    method FeedMessage(env: Envelope, now: nat) returns (actions: seq<Action>)
      requires Valid()
      modifies this
      ensures Valid()
      ensures Step(Abs(), actions) == Feed(old(Abs()), env, now)
    {
      FeedOnBus(Abs(), Dsp, env, now);
      SkippedNeverFits(env, Dsp);
      hide Feed, DspScript, Fits, Is, Kept;
      if ShouldSkipWithModeAck(env, Dsp) { return []; }
      if step.WaitStatus? || step.WaitDspQuery? || step.WaitDevInfo? {
        actions := FeedIdentity(env.message, now);
      } else {
        actions := FeedProducts(env.message, now);
      }
    }

    method FeedIdentity(m: Message, now: nat) returns (actions: seq<Action>)
      requires Valid() && (step.WaitStatus? || step.WaitDspQuery? || step.WaitDevInfo?)
      modifies this
      ensures Valid()
      ensures Step(Abs(), actions) == Answer(old(Abs()), m, now)
    {
      hide DspScript;
      match step
      case WaitStatus =>
        if !m.DspStatus? { return []; }
        status := Some(m.dsp);
        step := WaitDspQuery;
        replies := replies + [Some(m)];
        return [Send(DspQuery, Dsp)];
      case WaitDspQuery =>
        if !m.DspQueryResp? { return []; }
        hwInfo := Some(m.body);
        step := WaitDevInfo;
        replies := replies + [Some(m)];
        return [Send(DevInfoReq, Dsp)];
      case WaitDevInfo =>
        if !m.DevInfoResp? { return []; }
        devInfo := Some(m.body);
        step := WaitProdInfo0;
        replies := replies + [Some(m)];
        return [Send(ProdInfoReq(0x00), Dsp)];
    }

    method FeedProducts(m: Message, now: nat) returns (actions: seq<Action>)
      requires Valid() && !(step.WaitStatus? || step.WaitDspQuery? || step.WaitDevInfo?)
      modifies this
      ensures Valid()
      ensures Step(Abs(), actions) == Answer(old(Abs()), m, now)
    {
      hide Kept, DspScript, DspExchange, Fits, Is;
      LateExchanges(m);
      KeptStays(replies, Some(m), status, hwInfo, devInfo);
      match step
      case WaitProdInfo0 =>
        if !m.ProdInfoResp? { return []; }
        prodInfo := prodInfo + [m.body];
        step := WaitProdInfo1;
        replies := replies + [Some(m)];
        return [Send(ProdInfoReq(0x08), Dsp)];
      case WaitProdInfo1 =>
        if !m.ProdInfoResp? { return []; }
        prodInfo := prodInfo + [m.body];
        step := WaitProdInfo2;
        replies := replies + [Some(m)];
        return [Send(ProdInfoReq(0x09), Dsp)];
      case WaitProdInfo2 =>
        if !m.ProdInfoResp? { return []; }
        prodInfo := prodInfo + [m.body];
        step := WaitConfig;
        replies := replies + [Some(m)];
        return [Send(ConfigQuery, Dsp)];
      case WaitConfig =>
        if !m.ConfigResp? { return []; }
        config := Some(m.body);
        step := Done;
        replies := replies + [Some(m)];
        return [];
      case Done => return [];
    }

    /** No field is missing and no list short once the sequence is complete. */
    method IntoResult() returns (r: DspSync)
      requires Valid() && IsComplete()
      ensures r == DspResult(Abs())
    {
      assert Kept(replies, status, hwInfo, devInfo);
      r := DspSync(status.value, hwInfo.value, devInfo.value, [prodInfo[0], prodInfo[1], prodInfo[2]], config.value);
    }
  }

  /** The phase completes exactly when its seven replies occur in the stream, in order. */
  lemma SyncsExactly(ticks: seq<Tick>)
    ensures Complete(Run(Begin(DspScript()), ticks).next) <==> OccurIn(DspScript(), MessagesIn(ticks))
  {
    CompletesExactly(DspScript(), ticks);
  }

  // ---- where the result comes from -------------------------------------------------

  /** The seven commands of the phase. */
  function DspTrace(): seq<Action> {
    [Send(StatusPoll(false), Dsp), Send(DspQuery, Dsp), Send(DevInfoReq, Dsp), Send(ProdInfoReq(0x00), Dsp),
     Send(ProdInfoReq(0x08), Dsp), Send(ProdInfoReq(0x09), Dsp), Send(ConfigQuery, Dsp)]
  }

  /** Seven messages, and what the result holds of them. */
  predicate Holds(r: DspSync, m: seq<Message>) {
    && |m| == 7 && m[0].DspStatus? && m[1].DspQueryResp? && m[2].DevInfoResp?
    && m[3].ProdInfoResp? && m[4].ProdInfoResp? && m[5].ProdInfoResp? && m[6].ConfigResp?
    && r == DspSync(m[0].dsp, m[1].body, m[2].body, [m[3].body, m[4].body, m[5].body], m[6].body)
  }

  lemma HoldsReplies(p: Progress, m: seq<Message>)
    requires p.script == DspScript() && |p.replies| == 7 && RepliesAre(p, m)
    ensures Holds(DspResult(p), m)
  {
    hide Fits, DspExchange;
    forall k | 0 <= k < 7 ensures p.replies[k] == Some(m[k]) && Fits(DspExchange(k).awaits, m[k]) {
      assert DspScript()[k] == DspExchange(k);
    }
    EarlyExchanges(m[0], m[1], m[2]);
    forall k | 3 <= k < 7 { LateExchanges(m[k]); }
  }

  /**
   * The result of a completed phase holds the contents of seven messages of the DSP, each the reply to the
   * last command sent before it: the three product infos are those asked for with 0x00, 0x08 and 0x09.
   */
  lemma ResultHoldsReplies(ticks: seq<Tick>) returns (at: seq<nat>)
    requires Complete(Run(Begin(DspScript()), ticks).next)
    ensures |Run(Begin(DspScript()), ticks).next.replies| == 7
    ensures MessagesFrom(Dsp, ticks, at) && Holds(DspResult(Run(Begin(DspScript()), ticks).next), MessagesAt(Dsp, ticks, at))
    ensures forall k | 0 <= k < 7 :: at[k] <= |ticks| && SentBefore(DspScript(), ticks, at[k]) == DspTrace()[..k + 1]
  {
    forall i | 0 <= i < 7 ensures DspExchange(i).send == Some(DspTrace()[i]) {}
    hide Run, DspTrace, DspExchange, Holds, DspResult, MessagesFrom, RepliesAre;
    at := CompletedPhase(DspScript(), DspTrace(), Dsp, ticks);
    HoldsReplies(Run(Begin(DspScript()), ticks).next, MessagesAt(Dsp, ticks, at));
  }

  /** Whatever comes, a prefix of the seven commands is sent, and all of them once the phase is complete. */
  lemma SendsTrace(ticks: seq<Tick>)
    ensures SentBefore(DspScript(), ticks, |ticks|) <= DspTrace()
    ensures Complete(Run(Begin(DspScript()), ticks).next) ==> SentBefore(DspScript(), ticks, |ticks|) == DspTrace()
  {
    assert ticks[..|ticks|] == ticks;
    forall i | 0 <= i < 7 ensures DspExchange(i).send == Some(DspTrace()[i]) {}
    CommandsOneEach(DspScript(), DspTrace());
    RunTrace(DspScript(), ticks);
    hide Run, Commands, DspTrace;
  }
}
