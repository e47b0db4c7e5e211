/** The shot cycle: `ShotSequencer` of src/seq.rs. */
module ShotSeq {
  import opened Prelude
  import opened Wire
  import opened Protocol

  datatype ShotData = ShotData(
    flight: Option<Payload>, club: Option<Payload>, spin: Option<Payload>,
    speedProfile: Option<Payload>, prc: seq<Payload>, clubPrc: seq<Payload>)

  datatype ShotDatum = Flight(r: Payload) | FlightV1(r: Payload) | Club(r: Payload) | Spin(r: Payload)

  datatype ShotStep = Draining | WaitingForClubResult | WaitingForArmAck | WaitingForArmed | ShotDone

  const NO_DATA: ShotData := ShotData(None, None, None, None, [], [])
  const DRAIN_TIMEOUT: nat := 3000  // milliseconds

  const ACK: Action := Send(ShotDataAck, Avr)
  const RESULT_REQ: Action := Send(ShotResultReq, Avr)
  const REARM: Action := Send(AvrConfigCmd(true), Avr)

  // ---- specification -----------------------------------------------------------

  datatype ShotState = ShotState(step: ShotStep, data: ShotData, pending: Option<ShotDatum>, drainDeadline: Option<nat>)

  const BEGIN: ShotState := ShotState(Draining, NO_DATA, None, None)

  datatype ShotOut = ShotOut(next: ShotState, sends: seq<Action>)

  /** The accumulated data after one more drained message. */
  function Collect(d: ShotData, m: Message): ShotData {
    if m.FlightResult? then d.(flight := Some(m.body))
    else if m.ClubResult? then d.(club := Some(m.body))
    else if m.SpinResult? then d.(spin := Some(m.body))
    else if m.SpeedProfile? then d.(speedProfile := Some(m.body))
    else if m.PrcData? then d.(prc := d.prc + [m.body])
    else if m.ClubPrc? then d.(clubPrc := d.clubPrc + [m.body])
    else d
  }

  /** What a drained message is streamed as. */
  function DatumOf(m: Message): Option<ShotDatum> {
    if m.FlightResult? then Some(Flight(m.body))
    else if m.ClubResult? then Some(Club(m.body))
    else if m.SpinResult? then Some(Spin(m.body))
    else None
  }

  function Drain(s: ShotState, m: Message, now: nat): ShotState {
    ShotState(Draining, Collect(s.data, m),
              if DatumOf(m).Some? then DatumOf(m) else s.pending,
              if m.FlightResult? && s.drainDeadline.None? then Some(now + DRAIN_TIMEOUT) else s.drainDeadline)
  }

  function ShotFeed(s: ShotState, env: Envelope, now: nat): ShotOut {
    var m := env.message;
    match s.step
    case Draining =>
      if SaysIdle(m) then ShotOut(s.(step := WaitingForClubResult), [RESULT_REQ])
      else ShotOut(Drain(s, m, now), [])
    case WaitingForClubResult =>
      if m.ClubResult? then ShotOut(s.(step := WaitingForArmAck), [REARM]) else ShotOut(s, [])
    case WaitingForArmAck =>
      if env.src == Avr && m.ConfigAck? then ShotOut(s.(step := WaitingForArmed), []) else ShotOut(s, [])
    case WaitingForArmed => if SaysArmed(m) then ShotOut(s.(step := ShotDone), []) else ShotOut(s, [])
    case ShotDone => ShotOut(s, [])
  }

  function ShotExpire(s: ShotState, now: nat): ShotOut {
    if s.step.Draining? && s.drainDeadline.Some? && now >= s.drainDeadline.value
    then ShotOut(s.(step := WaitingForArmAck), [REARM])
    else ShotOut(s, [])
  }

  // ---- the sequencer -----------------------------------------------------------

  class ShotSequencer {
    var step: ShotStep
    var data: ShotData
    var pending: Option<ShotDatum>
    var drainDeadline: Option<nat>

    ghost function Abs(): ShotState
      reads this
    {
      ShotState(step, data, pending, drainDeadline)
    }

    constructor ()
      ensures Abs() == BEGIN
    {
      step := Draining;
      data := ShotData(None, None, None, None, [], []);
      pending := None;
      drainDeadline := None;
    }

    static function InitialActions(): seq<Action> { [Send(ShotDataAck, Avr), Send(ShotDataAck, Avr)] }

    predicate IsComplete()
      reads this
    {
      step.ShotDone?
    }

    method IntoResult() returns (r: ShotData)
      ensures r == Abs().data
    {
      r := data;
    }

    method TakePending() returns (r: Option<ShotDatum>)
      modifies this
      ensures r == old(pending) && Abs() == old(Abs()).(pending := None)
    {
      r := pending;
      pending := None;
    }

    method CheckDrainTimeout(now: nat) returns (actions: seq<Action>)
      modifies this
      ensures ShotOut(Abs(), actions) == ShotExpire(old(Abs()), now)
    {
      if !step.Draining? { return []; }
      if drainDeadline.Some? && now >= drainDeadline.value {
        step := WaitingForArmAck;
        return [Send(AvrConfigCmd(true), Avr)];
      }
      return [];
    }

    method FeedMessage(env: Envelope, now: nat) returns (actions: seq<Action>)
      modifies this
      ensures ShotOut(Abs(), actions) == ShotFeed(old(Abs()), env, now)
    {
      hide SaysArmed, SaysIdle;
      var m := env.message;
      match step
      case Draining =>
        if SaysIdle(m) {
          step := WaitingForClubResult;
          return [Send(ShotResultReq, Avr)];
        }
        DrainMessage(m, now);
        return [];
      case WaitingForClubResult =>
        if m.ClubResult? {
          step := WaitingForArmAck;
          return [Send(AvrConfigCmd(true), Avr)];
        }
        return [];
      case WaitingForArmAck =>
        if ShouldSkipWithModeAck(env, Avr) { return []; }
        if m.ConfigAck? { step := WaitingForArmed; }
        return [];
      case WaitingForArmed =>
        if SaysArmed(m) { step := ShotDone; }
        return [];
      case ShotDone => return [];
    }

    method DrainMessage(m: Message, now: nat)
      requires step.Draining?
      modifies this
      ensures Abs() == Drain(old(Abs()), m, now)
    {
      match m
      case FlightResult(r) =>
        data := data.(flight := Some(r));
        pending := Some(Flight(r));
        if drainDeadline.None? { drainDeadline := Some(now + DRAIN_TIMEOUT); }
      case ClubResult(r) =>
        data := data.(club := Some(r));
        pending := Some(Club(r));
      case SpinResult(r) =>
        data := data.(spin := Some(r));
        pending := Some(Spin(r));
      case SpeedProfile(r) => data := data.(speedProfile := Some(r));
      case PrcData(r) => data := data.(prc := data.prc + [r]);
      case ClubPrc(r) => data := data.(clubPrc := data.clubPrc + [r]);
      case _ =>
    }
  }

  // ---- one round of the event loop ---------------------------------------------

  datatype ShotRound = ShotRound(next: ShotState, sends: seq<Action>, streamed: seq<ShotDatum>)

  /** Drain timeout, then the message if any, then the pending datum handed to the caller. */
  function OnTick(s: ShotState, tick: Tick): ShotRound {
    var e := ShotExpire(s, tick.now);
    if tick.env.None? then ShotRound(e.next, e.sends, [])
    else
      var f := ShotFeed(e.next, tick.env.value, tick.now);
      if f.next.step.ShotDone? then ShotRound(f.next, e.sends + f.sends, [])
      else ShotRound(f.next.(pending := None), e.sends + f.sends,
                     if f.next.pending.Some? then [f.next.pending.value] else [])
  }

  function ShotRun(s: ShotState, ticks: seq<Tick>): ShotRound
    decreases |ticks|
  {
    if ticks == [] then ShotRound(s, [], [])
    else
      var first := OnTick(s, ticks[0]);
      var rest := ShotRun(first.next, ticks[1..]);
      ShotRound(rest.next, first.sends + rest.sends, first.streamed + rest.streamed)
  }

  // ---- what a shot amounts to ----------------------------------------------------

  /** The messages that arrive before the first IDLE, or before three seconds from the first flight result are over. */
  function Drained(ticks: seq<Tick>, deadline: Option<nat>): seq<Message>
    decreases |ticks|
  {
    if ticks == [] || (deadline.Some? && ticks[0].now >= deadline.value) then []
    else if ticks[0].env.None? then Drained(ticks[1..], deadline)
    else
      var m := ticks[0].env.value.message;
      if SaysIdle(m) then []
      else [m] + Drained(ticks[1..], if m.FlightResult? && deadline.None? then Some(ticks[0].now + 3000) else deadline)
  }

  function CollectAll(d: ShotData, ms: seq<Message>): ShotData
    decreases |ms|
  {
    if ms == [] then d else CollectAll(Collect(d, ms[0]), ms[1..])
  }

  function DatumSeq(m: Message): seq<ShotDatum> { if DatumOf(m).Some? then [DatumOf(m).value] else [] }

  function Datums(ms: seq<Message>): seq<ShotDatum> {
    if ms == [] then [] else DatumSeq(ms[0]) + Datums(ms[1..])
  }

  lemma {:induction false} AfterDrain(s: ShotState, ticks: seq<Tick>)
    requires !s.step.Draining? && s.pending.None?
    ensures ShotRun(s, ticks).next.data == s.data && ShotRun(s, ticks).streamed == []
    ensures !ShotRun(s, ticks).next.step.Draining?
    ensures ShotRun(s, ticks).next.step.ShotDone? ==>
              ShotRun(s, ticks).sends == if s.step.WaitingForClubResult? then [REARM] else []
    decreases |ticks|
  {
    hide SaysArmed, SaysIdle;
    if ticks != [] {
      AfterDrain(OnTick(s, ticks[0]).next, ticks[1..]);
    }
  }

  /** Data and streamed events of a run are those of its drained messages. */
  lemma {:induction false} RunDrains(s: ShotState, ticks: seq<Tick>)
    requires s.step.Draining? && s.pending.None?
    ensures ShotRun(s, ticks).next.data == CollectAll(s.data, Drained(ticks, s.drainDeadline))
    ensures ShotRun(s, ticks).streamed == Datums(Drained(ticks, s.drainDeadline))
    decreases |ticks|
  {
    hide SaysArmed, SaysIdle, Collect, OnTick, DatumSeq;
    if ticks != [] {
      var first := OnTick(s, ticks[0]);
      TickDrains(s, ticks[0]);
      if first.next.step.Draining? {
        RunDrains(first.next, ticks[1..]);
        Associative(ShotRun(first.next, ticks[1..]).streamed, [], []);
      } else {
        AfterDrain(first.next, ticks[1..]);
      }
    }
  }

  /** One round while draining: nothing, one drained message, or the end of the drain. */
  lemma TickDrains(s: ShotState, tick: Tick)
    requires s.step.Draining? && s.pending.None?
    ensures var r := OnTick(s, tick);
            if s.drainDeadline.Some? && tick.now >= s.drainDeadline.value then
              !r.next.step.Draining? && r.next.pending.None? && r.next.data == s.data && r.streamed == []
            else if tick.env.None? then r == ShotRound(s, [], [])
            else
              var m := tick.env.value.message;
              if SaysIdle(m) then
                r.next.step.WaitingForClubResult? && r.next.pending.None? && r.next.data == s.data && r.streamed == []
              else
                var d := if m.FlightResult? && s.drainDeadline.None? then Some(tick.now + DRAIN_TIMEOUT) else s.drainDeadline;
                r == ShotRound(s.(data := Collect(s.data, m), drainDeadline := d), [], DatumSeq(m))
  {
    hide SaysArmed, SaysIdle, Collect;
  }

  // ---- when a shot completes -----------------------------------------------------

  /** How and where the drain ends; a round whose time ends it may still bring the next message. */
  datatype DrainEnd = StillDraining | ByIdle(rest: seq<Tick>) | ByTimeout(rest: seq<Tick>)

  function EndOfDrain(ticks: seq<Tick>, deadline: Option<nat>): DrainEnd
    decreases |ticks|
  {
    if ticks == [] then StillDraining
    else if deadline.Some? && ticks[0].now >= deadline.value then ByTimeout(ticks)
    else if ticks[0].env.None? then EndOfDrain(ticks[1..], deadline)
    else
      var m := ticks[0].env.value.message;
      if SaysIdle(m) then ByIdle(ticks[1..])
      else EndOfDrain(ticks[1..], if m.FlightResult? && deadline.None? then Some(ticks[0].now + 3000) else deadline)
  }

  /** What is waited for after the drain. */
  datatype Sign = ClubData | ArmAck | ArmedText

  predicate Shows(x: Sign, env: Envelope) {
    match x
    case ClubData => env.message.ClubResult?
    case ArmAck => env.src == Avr && env.message.ConfigAck?
    case ArmedText => SaysArmed(env.message)
  }

  function Needed(step: ShotStep): seq<Sign> {
    match step
    case Draining => []
    case WaitingForClubResult => [ClubData, ArmAck, ArmedText]
    case WaitingForArmAck => [ArmAck, ArmedText]
    case WaitingForArmed => [ArmedText]
    case ShotDone => []
  }

  /** The signs needed after the drain's end come, in order. */
  predicate Completes(ticks: seq<Tick>, deadline: Option<nat>) {
    match EndOfDrain(ticks, deadline)
    case StillDraining => false
    case ByIdle(rest) => Occur(Shows, [ClubData, ArmAck, ArmedText], MessagesIn(rest))
    case ByTimeout(rest) => Occur(Shows, [ArmAck, ArmedText], MessagesIn(rest))
  }

  /** One message after the drain: the first sign needed is taken when it shows. */
  lemma TickAfterDrain(s: ShotState, tick: Tick)
    requires !s.step.Draining? && s.pending.None?
    ensures var n := OnTick(s, tick).next;
            && !n.step.Draining? && n.pending.None?
            && (tick.env.None? || s.step.ShotDone? ==> n.step == s.step)
            && (tick.env.Some? && !s.step.ShotDone? ==>
                  Needed(n.step) == if Shows(Needed(s.step)[0], tick.env.value) then Needed(s.step)[1..] else Needed(s.step))
  {
    hide SaysArmed, SaysIdle;
  }

  lemma {:induction false} AfterDrainCompletes(s: ShotState, ticks: seq<Tick>)
    requires !s.step.Draining? && s.pending.None?
    ensures ShotRun(s, ticks).next.step.ShotDone? <==> Occur(Shows, Needed(s.step), MessagesIn(ticks))
    decreases |ticks|
  {
    hide OnTick, Shows;
    if ticks != [] {
      var rest := MessagesIn(ticks[1..]);
      TickAfterDrain(s, ticks[0]);
      AfterDrainCompletes(OnTick(s, ticks[0]).next, ticks[1..]);
      if ticks[0].env.None? {
        assert [] + rest == rest;
      } else {
        var env := ticks[0].env.value;
        assert ([env] + rest)[1..] == rest;
        if !s.step.ShotDone? { TakeFirst(Shows, Needed(s.step), [env] + rest); }
      }
    }
  }

  /** An expired drain has the same run behind it as one that never was. */
  lemma ExpiredRuns(s: ShotState, ticks: seq<Tick>)
    requires s.step.Draining? && ticks != [] && s.drainDeadline.Some? && ticks[0].now >= s.drainDeadline.value
    ensures ShotRun(s, ticks).next == ShotRun(s.(step := WaitingForArmAck), ticks).next
  {
    hide ShotFeed;
  }

  lemma {:induction false} DrainCompletes(s: ShotState, ticks: seq<Tick>)
    requires s.step.Draining? && s.pending.None?
    ensures ShotRun(s, ticks).next.step.ShotDone? <==> Completes(ticks, s.drainDeadline)
    decreases |ticks|
  {
    hide SaysArmed, SaysIdle, Collect, OnTick, DatumSeq, Occur;
    if ticks != [] {
      TickDrains(s, ticks[0]);
      if s.drainDeadline.Some? && ticks[0].now >= s.drainDeadline.value {
        ExpiredRuns(s, ticks);
        AfterDrainCompletes(s.(step := WaitingForArmAck), ticks);
      } else {
        var next := OnTick(s, ticks[0]).next;
        if next.step.Draining? { DrainCompletes(next, ticks[1..]); } else { AfterDrainCompletes(next, ticks[1..]); }
      }
    }
  }

  /**
   * A shot completes exactly when IDLE ends the drain and a club result, the AVR's acknowledgement of the arm
   * command and an ARMED text that is not a cancellation come after it in that order, or the drain times out
   * and the last two come.
   */
  lemma ShotCompletesExactly(ticks: seq<Tick>)
    ensures ShotRun(BEGIN, ticks).next.step.ShotDone? <==> Completes(ticks, None)
  {
    DrainCompletes(BEGIN, ticks);
  }

  /** The last streamed datum of each kind. */
  function LastFlight(ds: seq<ShotDatum>): Option<Payload> {
    if ds == [] then None
    else if ds[|ds| - 1].Flight? then Some(ds[|ds| - 1].r) else LastFlight(ds[..|ds| - 1])
  }

  function LastClub(ds: seq<ShotDatum>): Option<Payload> {
    if ds == [] then None
    else if ds[|ds| - 1].Club? then Some(ds[|ds| - 1].r) else LastClub(ds[..|ds| - 1])
  }

  function LastSpin(ds: seq<ShotDatum>): Option<Payload> {
    if ds == [] then None
    else if ds[|ds| - 1].Spin? then Some(ds[|ds| - 1].r) else LastSpin(ds[..|ds| - 1])
  }

  predicate Matches(d: ShotData, ds: seq<ShotDatum>) {
    d.flight == LastFlight(ds) && d.club == LastClub(ds) && d.spin == LastSpin(ds)
  }

  lemma OneMoreStreamed(d: ShotData, before: seq<ShotDatum>, m: Message)
    requires Matches(d, before)
    ensures Matches(Collect(d, m), before + DatumSeq(m))
  {
    if DatumOf(m).None? {
      Associative(before, [], []);
    } else {
      LastOf(before, DatumOf(m).value);
      hide LastFlight, LastClub, LastSpin;
    }
  }

  lemma LastOf(before: seq<ShotDatum>, x: ShotDatum)
    ensures LastFlight(before + [x]) == if x.Flight? then Some(x.r) else LastFlight(before)
    ensures LastClub(before + [x]) == if x.Club? then Some(x.r) else LastClub(before)
    ensures LastSpin(before + [x]) == if x.Spin? then Some(x.r) else LastSpin(before)
  {
    assert (before + [x])[..|before|] == before;
  }

  lemma {:induction false} LastStreamedKept(d: ShotData, before: seq<ShotDatum>, ms: seq<Message>)
    requires Matches(d, before)
    ensures Matches(CollectAll(d, ms), before + Datums(ms))
    decreases |ms|
  {
    hide Matches, Collect, DatumSeq;
    if ms == [] {
      Associative(before, [], []);
    } else {
      var x := DatumSeq(ms[0]);
      OneMoreStreamed(d, before, ms[0]);
      Associative(before, x, Datums(ms[1..]));
      LastStreamedKept(Collect(d, ms[0]), before + x, ms[1..]);
    }
  }

  /**
   * On every interleaving of messages and drain timeouts a completed shot sent two acknowledgements, the
   * result request if IDLE ended the drain, and exactly one arm command, last. Its data is what the messages
   * before the first IDLE or drain timeout bring; exactly their flight, club and spin results were streamed,
   * in order; and the last one streamed of each kind is the one in the data.
   */
  lemma ShotCycle(ticks: seq<Tick>)
    ensures ShotRun(BEGIN, ticks).next.data == CollectAll(NO_DATA, Drained(ticks, None))
    ensures ShotRun(BEGIN, ticks).streamed == Datums(Drained(ticks, None))
    ensures Matches(ShotRun(BEGIN, ticks).next.data, ShotRun(BEGIN, ticks).streamed)
    ensures Gathers(ShotRun(BEGIN, ticks).next.data, Drained(ticks, None))
    ensures ShotRun(BEGIN, ticks).next.step.ShotDone? ==>
              var sent := ShotSequencer.InitialActions() + ShotRun(BEGIN, ticks).sends;
              sent == [Send(ShotDataAck, Avr), Send(ShotDataAck, Avr)] + CompletedSends(EndOfDrain(ticks, None))
  {
    hide ShotRun, Drained, CollectAll, Datums, Gathers, EndOfDrain;
    RunDrains(BEGIN, ticks);
    CompletedRunSends(ticks);
    assert Matches(NO_DATA, []);
    hide Matches;
    LastStreamedKept(NO_DATA, [], Drained(ticks, None));
    DataOfMessages(Drained(ticks, None));
    Associative(Datums(Drained(ticks, None)), [], []);
  }

  // ---- the data, message by message --------------------------------------------------

  /** The bodies of the messages of one kind, in order. */
  function BodiesOf(kind: Message -> bool, ms: seq<Message>): seq<Payload>
    decreases |ms|
  {
    if ms == [] then []
    else BodiesOf(kind, ms[..|ms| - 1]) + if kind(ms[|ms| - 1]) then [BodyOf(ms[|ms| - 1])] else []
  }

  function LastBody(bodies: seq<Payload>): Option<Payload> {
    if bodies == [] then None else Some(bodies[|bodies| - 1])
  }

  predicate IsFlight(m: Message) { m.FlightResult? }
  predicate IsClub(m: Message) { m.ClubResult? }
  predicate IsSpin(m: Message) { m.SpinResult? }
  predicate IsSpeed(m: Message) { m.SpeedProfile? }
  predicate IsPrc(m: Message) { m.PrcData? }
  predicate IsClubPrc(m: Message) { m.ClubPrc? }

  /** All pages, and the last of everything else. */
  predicate Gathers(d: ShotData, ms: seq<Message>) {
    && d.flight == LastBody(BodiesOf(IsFlight, ms)) && d.club == LastBody(BodiesOf(IsClub, ms))
    && d.spin == LastBody(BodiesOf(IsSpin, ms)) && d.speedProfile == LastBody(BodiesOf(IsSpeed, ms))
    && d.prc == BodiesOf(IsPrc, ms) && d.clubPrc == BodiesOf(IsClubPrc, ms)
  }

  lemma OneMoreBody(kind: Message -> bool, ms: seq<Message>, m: Message)
    ensures BodiesOf(kind, ms + [m]) == BodiesOf(kind, ms) + if kind(m) then [BodyOf(m)] else []
  {
    assert (ms + [m])[..|ms|] == ms;
  }

  /** The last body of a kind, after one more message. */
  lemma OneMoreLast(kind: Message -> bool, ms: seq<Message>, m: Message)
    ensures LastBody(BodiesOf(kind, ms + [m])) == if kind(m) then Some(BodyOf(m)) else LastBody(BodiesOf(kind, ms))
  {
    OneMoreBody(kind, ms, m);
    hide BodiesOf;
    Associative(BodiesOf(kind, ms), [], []);
  }

  lemma OneMoreGathered(d: ShotData, ms: seq<Message>, m: Message)
    requires Gathers(d, ms)
    ensures Gathers(Collect(d, m), ms + [m])
  {
    hide BodiesOf, LastBody;
    OneMoreLast(IsFlight, ms, m);
    OneMoreLast(IsClub, ms, m);
    OneMoreLast(IsSpin, ms, m);
    OneMoreLast(IsSpeed, ms, m);
    OneMoreBody(IsPrc, ms, m);
    OneMoreBody(IsClubPrc, ms, m);
    Associative(BodiesOf(IsPrc, ms), [], []);
    Associative(BodiesOf(IsClubPrc, ms), [], []);
  }

  lemma {:induction false} MoreGathered(d: ShotData, before: seq<Message>, ms: seq<Message>)
    requires Gathers(d, before)
    ensures Gathers(CollectAll(d, ms), before + ms)
    decreases |ms|
  {
    hide Gathers, Collect;
    Associative(before, [], []);
    if ms != [] {
      OneMoreGathered(d, before, ms[0]);
      assert before + [ms[0]] + ms[1..] == before + ms;
      MoreGathered(Collect(d, ms[0]), before + [ms[0]], ms[1..]);
    }
  }

  /**
   * What a shot gathers from the messages it drains: the radar pages of each kind, all and in order, and the
   * last flight, club and spin result and speed profile, if there is one.
   */
  lemma DataOfMessages(ms: seq<Message>)
    ensures Gathers(CollectAll(NO_DATA, ms), ms)
  {
    MoreGathered(NO_DATA, [], ms);
    Associative(ms, [], []);
  }

  // ---- the commands, one by one --------------------------------------------------------

  /** What has been sent after the drain, by where the shot stands. */
  function SentAfter(step: ShotStep): seq<Action> {
    if step.Draining? || step.WaitingForClubResult? then [] else [Send(AvrConfigCmd(true), Avr)]
  }

  lemma {:induction false} AfterDrainSends(s: ShotState, ticks: seq<Tick>)
    requires !s.step.Draining? && s.pending.None?
    ensures var r := ShotRun(s, ticks);
            && !r.next.step.Draining? && SentAfter(s.step) + r.sends == SentAfter(r.next.step)
    decreases |ticks|
  {
    hide SaysArmed, SaysIdle, Collect, DatumOf;
    Associative(SentAfter(s.step), [], []);
    if ticks != [] {
      var first := OnTick(s, ticks[0]);
      AfterDrainSends(first.next, ticks[1..]);
      Associative(SentAfter(s.step), first.sends, ShotRun(first.next, ticks[1..]).sends);
    }
  }

  /** What is sent by the end of a drain. */
  function SentByDrain(e: DrainEnd): seq<Action> { if e.ByIdle? then [Send(ShotResultReq, Avr)] else [] }

  lemma {:induction false} DrainSends(s: ShotState, ticks: seq<Tick>)
    requires s.step.Draining? && s.pending.None?
    ensures var (r, e) := (ShotRun(s, ticks), EndOfDrain(ticks, s.drainDeadline));
            && (r.next.step.Draining? <==> e.StillDraining?)
            && r.sends == SentByDrain(e) + SentAfter(r.next.step)
    decreases |ticks|
  {
    hide SaysArmed, SaysIdle, Collect, DatumSeq, ShotFeed;
    if ticks != [] {
      var rest := ticks[1..];
      TickDrains(s, ticks[0]);
      var first := OnTick(s, ticks[0]);
      if s.drainDeadline.Some? && ticks[0].now >= s.drainDeadline.value {
        var t := s.(step := WaitingForArmAck);
        AfterDrainSends(t, ticks);
        assert OnTick(t, ticks[0]).next == first.next && first.sends == [REARM] + OnTick(t, ticks[0]).sends;
        Associative([REARM], OnTick(t, ticks[0]).sends, ShotRun(first.next, rest).sends);
      } else if first.next.step.Draining? {
        DrainSends(first.next, rest);
        assert first.sends == [];
        Associative(ShotRun(first.next, rest).sends, [], []);
      } else {
        AfterDrainSends(first.next, rest);
        IdleAsks(s, ticks[0]);
        Associative(ShotRun(first.next, rest).sends, [], []);
      }
    }
  }

  lemma IdleAsks(s: ShotState, tick: Tick)
    requires s.step.Draining? && !(s.drainDeadline.Some? && tick.now >= s.drainDeadline.value)
    requires tick.env.Some? && SaysIdle(tick.env.value.message)
    ensures OnTick(s, tick).sends == [Send(ShotResultReq, Avr)]
  {
    hide SaysIdle;
  }

  /** What a completed shot has sent after its acknowledgements, by the end of its drain. */
  function CompletedSends(e: DrainEnd): seq<Action> {
    if e.ByIdle? then [Send(ShotResultReq, Avr), Send(AvrConfigCmd(true), Avr)] else [Send(AvrConfigCmd(true), Avr)]
  }

  lemma CompletedRunSends(ticks: seq<Tick>)
    ensures var r := ShotRun(BEGIN, ticks);
            r.next.step.ShotDone? ==> r.sends == CompletedSends(EndOfDrain(ticks, None))
  {
    DrainSends(BEGIN, ticks);
    hide ShotRun, EndOfDrain;
  }

  /**
   * At every point of a shot: two acknowledgements, the result request if and only if IDLE has ended the
   * drain, and the arm command if and only if the club result has come after that, or the drain has timed out.
   */
  lemma ShotSends(ticks: seq<Tick>)
    ensures var r := ShotRun(BEGIN, ticks);
            ShotSequencer.InitialActions() + r.sends
              == [Send(ShotDataAck, Avr), Send(ShotDataAck, Avr)]
                 + (SentByDrain(EndOfDrain(ticks, None)) + SentAfter(r.next.step))
  {
    DrainSends(BEGIN, ticks);
    hide ShotRun, EndOfDrain;
  }
}
