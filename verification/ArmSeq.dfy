/** Phase 6: `ArmSequencer` of src/seq.rs, with its unbounded retries. */
module ArmSeq {
  import opened Prelude
  import opened Wire
  import opened Protocol

  // ---- specification -----------------------------------------------------------

  const POLL_DSP: Action := Send(StatusPoll(false), Dsp)
  const POLL_AVR: Action := Send(StatusPoll(false), Avr)
  const ARM: Action := Send(AvrConfigCmd(true), Avr)
  const POLL_PI: Action := Send(StatusPoll(true), Pi)

  /** The round under way, after `nacks` rejected ones, and how far it has got (4 is armed). */
  datatype ArmState = ArmState(nacks: nat, pos: nat, gotPi: bool, gotArmed: bool)

  datatype ArmOut = ArmOut(next: ArmState, sends: seq<Action>)

  const BEGIN: ArmState := ArmState(0, 0, false, false)

  predicate ArmGood(a: ArmState) {
    a.pos <= 4 && (a.pos < 3 ==> !a.gotPi && !a.gotArmed) && (a.pos >= 3 ==> (a.pos == 4 <==> a.gotPi && a.gotArmed))
  }

  function ArmFeed(a: ArmState, env: Envelope): ArmOut {
    var m := env.message;
    if a.pos == 0 && env.src == Dsp && m.DspStatus? then ArmOut(a.(pos := 1), [POLL_AVR])
    else if a.pos == 1 && env.src == Avr && m.AvrStatus? then ArmOut(a.(pos := 2), [ARM])
    else if a.pos == 2 && env.src == Avr && m.ConfigNack? then ArmOut(a.(nacks := a.nacks + 1, pos := 0), [POLL_DSP])
    else if a.pos == 2 && env.src == Avr && m.ConfigAck? then ArmOut(a.(pos := 3), [POLL_PI])
    else if a.pos == 3 then
      var pi, armed := a.gotPi || m.PiStatus?, a.gotArmed || SaysArmed(m);
      ArmOut(a.(gotPi := pi, gotArmed := armed, pos := if pi && armed then 4 else 3), [])
    else ArmOut(a, [])
  }

  // ---- the sequencer -----------------------------------------------------------

  datatype ArmStep =
    | WaitDspStatus | WaitAvrStatus | WaitArmAck | WaitPiAndArmed(gotPi: bool, gotArmed: bool) | ArmDone

  type u16 = n: int | 0 <= n < 0x1_0000

  class ArmSequencer {
    var step: ArmStep
    var retries: u16
    ghost var nacks: nat

    ghost function Abs(): ArmState
      reads this
    {
      match step
      case WaitDspStatus => ArmState(nacks, 0, false, false)
      case WaitAvrStatus => ArmState(nacks, 1, false, false)
      case WaitArmAck => ArmState(nacks, 2, false, false)
      case WaitPiAndArmed(pi, armed) => ArmState(nacks, 3, pi, armed)
      case ArmDone => ArmState(nacks, 4, true, true)
    }

    /** The retry counter wraps at 16 bits. */
    ghost predicate Valid()
      reads this
    {
      retries == nacks % 0x1_0000 && (step.WaitPiAndArmed? ==> !(step.gotPi && step.gotArmed))
    }

    constructor ()
      ensures Valid() && Abs() == BEGIN
    {
      step := WaitDspStatus;
      retries := 0;
      nacks := 0;
    }

    static function InitialActions(): seq<Action> { [POLL_DSP] }

    predicate IsComplete()
      reads this
    {
      step.ArmDone?
    }

    method FeedMessage(env: Envelope) returns (actions: seq<Action>)
      requires Valid()
      modifies this
      ensures Valid()
      ensures ArmOut(Abs(), actions) == ArmFeed(old(Abs()), env)
    {
      hide SaysArmed;
      var m := env.message;
      match step
      case WaitDspStatus =>
        if env.src != Dsp { return []; }
        if m.Text? || m.DspDebug? || m.CamState? || m.ConfigNack? || m.ModeAck? || m.Unknown? { return []; }
        if m.DspStatus? {
          step := WaitAvrStatus;
          return [Send(StatusPoll(false), Avr)];
        }
        return [];
      case WaitAvrStatus =>
        if ShouldSkipWithModeAck(env, Avr) { return []; }
        if m.AvrStatus? {
          step := WaitArmAck;
          return [Send(AvrConfigCmd(true), Avr)];
        }
        return [];
      case WaitArmAck =>
        if env.src != Avr { return []; }
        if m.Text? || m.DspDebug? || m.CamState? || m.ModeAck? || m.Unknown? { return []; }
        if m.ConfigNack? {
          retries := (retries + 1) % 0x1_0000;
          nacks := nacks + 1;
          step := WaitDspStatus;
          return [Send(StatusPoll(false), Dsp)];
        }
        if m.ConfigAck? {
          step := WaitPiAndArmed(false, false);
          return [Send(StatusPoll(true), Pi)];
        }
        return [];
      case WaitPiAndArmed(gotPi, gotArmed) =>
        var pi, armed := gotPi, gotArmed;
        if m.PiStatus? { pi := true; }
        if SaysArmed(m) { armed := true; }
        step := if pi && armed then ArmDone else WaitPiAndArmed(pi, armed);
        return [];
      case ArmDone => return [];
    }
  }

  // ---- traces --------------------------------------------------------------------

  function ArmRun(envs: seq<Envelope>): (a: ArmState)
    ensures ArmGood(a)
  {
    if envs == [] then BEGIN else ArmFeed(ArmRun(envs[..|envs| - 1]), envs[|envs| - 1]).next
  }

  /** Everything sent while the messages came in, the initial poll first. */
  function ArmSends(envs: seq<Envelope>): seq<Action> {
    if envs == [] then [POLL_DSP]
    else ArmSends(envs[..|envs| - 1]) + ArmFeed(ArmRun(envs[..|envs| - 1]), envs[|envs| - 1]).sends
  }

  function Rounds(n: nat): seq<Action> {
    if n == 0 then []
    else Rounds(n - 1) + [Send(StatusPoll(false), Dsp), Send(StatusPoll(false), Avr), Send(AvrConfigCmd(true), Avr)]
  }

  const LAST_ROUND: seq<Action> :=
    [Send(StatusPoll(false), Dsp), Send(StatusPoll(false), Avr), Send(AvrConfigCmd(true), Avr), Send(StatusPoll(true), Pi)]

  /** How much of the last round has been sent. */
  function Sent(pos: nat): seq<Action> { LAST_ROUND[..if pos < 4 then pos + 1 else 4] }

  lemma RoundContinues(a: ArmState, env: Envelope)
    requires ArmGood(a)
    ensures var f := ArmFeed(a, env);
            if f.next.nacks == a.nacks then Sent(a.pos) + f.sends == Sent(f.next.pos)
            else f.next.nacks == a.nacks + 1 && f.sends == Sent(f.next.pos)
                 && Sent(a.pos) == [Send(StatusPoll(false), Dsp), Send(StatusPoll(false), Avr), Send(AvrConfigCmd(true), Avr)]
  {
    hide SaysArmed;
    Associative(Sent(a.pos), [], []);
  }

  /** The commands are whole rejected rounds followed by a prefix of the accepted one. */
  lemma {:induction false} ArmTrace(envs: seq<Envelope>)
    ensures var a := ArmRun(envs);
            ArmSends(envs) == Rounds(a.nacks) + Sent(a.pos)
  {
    if envs != [] {
      var before := envs[..|envs| - 1];
      ArmTrace(before);
      RoundContinues(ArmRun(before), envs[|envs| - 1]);
      hide ArmFeed, Sent;
      Associative(Rounds(ArmRun(before).nacks), Sent(ArmRun(before).pos), ArmFeed(ArmRun(before), envs[|envs| - 1]).sends);
    }
  }

  /** Message k acknowledged the last Arm command: no rejection came after it. */
  ghost predicate AcksLastArm(envs: seq<Envelope>, k: nat) {
    && k < |envs| && envs[k].src == Avr && envs[k].message.ConfigAck?
    && ArmRun(envs[..k]).pos == 2 && ArmRun(envs[..k]).nacks == ArmRun(envs).nacks
  }

  ghost predicate Confirmed(envs: seq<Envelope>, k: nat, i: nat, j: nat) {
    && AcksLastArm(envs, k)
    && k < i < |envs| && envs[i].message.PiStatus?
    && k < j < |envs| && SaysArmed(envs[j].message)
  }

  lemma {:induction false} FindAck(envs: seq<Envelope>) returns (k: nat, i: nat, j: nat)
    requires ArmRun(envs).pos >= 3
    ensures AcksLastArm(envs, k)
    ensures ArmRun(envs).gotPi ==> k < i < |envs| && envs[i].message.PiStatus?
    ensures ArmRun(envs).gotArmed ==> k < j < |envs| && SaysArmed(envs[j].message)
  {
    hide SaysArmed;
    var n := |envs| - 1;
    var before := envs[..n];
    if ArmRun(before).pos >= 3 {
      k, i, j := FindAck(before);
      assert before[..k] == envs[..k];
      if !ArmRun(before).gotPi { i := n; }
      if !ArmRun(before).gotArmed { j := n; }
    } else {
      k, i, j := n, 0, 0;
    }
  }

  /** Once the arm command is acknowledged there is no way back, and confirmations are remembered. */
  lemma {:induction false} AfterAck(envs: seq<Envelope>, k: nat)
    requires k < |envs| && envs[k].src == Avr && envs[k].message.ConfigAck? && ArmRun(envs[..k]).pos == 2
    ensures ArmRun(envs).pos >= 3
    ensures forall i | k < i < |envs| :: envs[i].message.PiStatus? ==> ArmRun(envs).gotPi
    ensures forall j | k < j < |envs| :: SaysArmed(envs[j].message) ==> ArmRun(envs).gotArmed
    decreases |envs|
  {
    hide SaysArmed;
    var n := |envs| - 1;
    var before := envs[..n];
    if k < n {
      assert before[..k] == envs[..k] && before[k] == envs[k];
      AfterAck(before, k);
      forall i | k < i < |envs| && i != n ensures envs[i] == before[i] {}
    }
  }

  /**
   * Armed is reached exactly when an AVR acknowledgement answered the last Arm command and both a PI status
   * and an ARMED text that is not a cancellation followed it, in either order.
   */
  lemma ArmedExactlyIfConfirmed(envs: seq<Envelope>)
    ensures ArmRun(envs).pos == 4 <==> exists k, i, j :: Confirmed(envs, k, i, j)
  {
    hide SaysArmed, ArmRun;
    if ArmRun(envs).pos == 4 {
      var k, i, j := FindAck(envs);
      assert Confirmed(envs, k, i, j);
    }
    if k, i, j :| Confirmed(envs, k, i, j) {
      AfterAck(envs, k);
    }
  }

  // ---- the replies, without the sequencer -------------------------------------------

  datatype Search = Missing | Found(env: Envelope, rest: seq<Envelope>)

  /** The first message that fits, and those behind it. */
  function Find(fits: Envelope -> bool, ms: seq<Envelope>): (r: Search)
    ensures r.Found? ==> fits(r.env) && |r.rest| < |ms|
  {
    if ms == [] then Missing else if fits(ms[0]) then Found(ms[0], ms[1..]) else Find(fits, ms[1..])
  }

  predicate DspReports(env: Envelope) { env.src == Dsp && env.message.DspStatus? }

  predicate AvrReports(env: Envelope) { env.src == Avr && env.message.AvrStatus? }

  predicate Responds(env: Envelope) { env.src == Avr && (env.message.ConfigAck? || env.message.ConfigNack?) }

  predicate BringsPi(ms: seq<Envelope>) { exists i :: 0 <= i < |ms| && ms[i].message.PiStatus? }

  predicate BringsArmed(ms: seq<Envelope>) { exists i :: 0 <= i < |ms| && SaysArmed(ms[i].message) }

  /** How often the arm command is rejected, and whether the device is armed in the end. */
  datatype Verdict = Verdict(rejected: nat, armed: bool)

  /** From the start of a round: the DSP's status, then the AVR's, then its response to the arm command. */
  function Round(ms: seq<Envelope>): Verdict
    decreases |ms|, 2
  {
    var dsp := Find(DspReports, ms);
    if dsp.Missing? then Verdict(0, false) else AfterDsp(dsp.rest)
  }

  function AfterDsp(ms: seq<Envelope>): Verdict
    decreases |ms|, 1
  {
    var avr := Find(AvrReports, ms);
    if avr.Missing? then Verdict(0, false) else AfterAvr(avr.rest)
  }

  /** A rejection begins the next round; an acknowledgement leaves the two confirmations. */
  function AfterAvr(ms: seq<Envelope>): Verdict
    decreases |ms|, 0
  {
    var response := Find(Responds, ms);
    if response.Missing? then Verdict(0, false)
    else if response.env.message.ConfigNack? then
      var rest := Round(response.rest);
      rest.(rejected := rest.rejected + 1)
    else Verdict(0, BringsPi(response.rest) && BringsArmed(response.rest))
  }

  function Awaits(a: ArmState, ms: seq<Envelope>): Verdict {
    if a.pos == 0 then Round(ms)
    else if a.pos == 1 then AfterDsp(ms)
    else if a.pos == 2 then AfterAvr(ms)
    else if a.pos == 3 then Verdict(0, (a.gotPi || BringsPi(ms)) && (a.gotArmed || BringsArmed(ms)))
    else Verdict(0, true)
  }

  lemma BringsFirst(ms: seq<Envelope>)
    requires ms != []
    ensures BringsPi(ms) <==> ms[0].message.PiStatus? || BringsPi(ms[1..])
    ensures BringsArmed(ms) <==> SaysArmed(ms[0].message) || BringsArmed(ms[1..])
  {
    hide SaysArmed;
    assert forall i :: 0 <= i < |ms| - 1 ==> ms[1..][i] == ms[i + 1];
    if i :| 0 < i < |ms| && ms[i].message.PiStatus? { assert ms[1..][i - 1] == ms[i]; }
    if i :| 0 < i < |ms| && SaysArmed(ms[i].message) { assert ms[1..][i - 1] == ms[i]; }
  }

  /** One message: what is awaited after it is what was awaited of both. */
  lemma AwaitsFirst(a: ArmState, ms: seq<Envelope>)
    requires ArmGood(a) && ms != []
    ensures var next := ArmFeed(a, ms[0]).next;
            && ArmGood(next) && a.nacks <= next.nacks
            && Awaits(a, ms) == Verdict(next.nacks - a.nacks + Awaits(next, ms[1..]).rejected, Awaits(next, ms[1..]).armed)
  {
    hide SaysArmed, BringsPi, BringsArmed;
    BringsFirst(ms);
  }

  function ArmFrom(a: ArmState, ms: seq<Envelope>): ArmState
    decreases |ms|
  {
    if ms == [] then a else ArmFrom(ArmFeed(a, ms[0]).next, ms[1..])
  }

  lemma {:induction false} AwaitsAll(a: ArmState, ms: seq<Envelope>)
    requires ArmGood(a)
    ensures var end := ArmFrom(a, ms);
            a.nacks <= end.nacks && Awaits(a, ms) == Verdict(end.nacks - a.nacks, end.pos == 4)
    decreases |ms|
  {
    hide ArmFeed;
    if ms != [] {
      AwaitsFirst(a, ms);
      AwaitsAll(ArmFeed(a, ms[0]).next, ms[1..]);
    }
  }

  lemma ArmsFromBegin(ms: seq<Envelope>)
    ensures Round(ms) == Verdict(ArmFrom(BEGIN, ms).nacks, ArmFrom(BEGIN, ms).pos == 4)
  {
    AwaitsAll(BEGIN, ms);
  }

  lemma {:induction false} RunFrom(before: seq<Envelope>, ms: seq<Envelope>)
    ensures ArmRun(before + ms) == ArmFrom(ArmRun(before), ms)
    decreases |ms|
  {
    Associative(before, [], []);
    hide ArmFeed;
    if ms != [] {
      var longer := before + [ms[0]];
      assert longer[..|before|] == before && longer + ms[1..] == before + ms;
      RunFrom(longer, ms[1..]);
    }
  }

  /**
   * Read off the messages alone: the arm command is sent again after exactly the rejections that answer one,
   * each of which starts over from the two statuses, and the device counts as armed exactly when the response
   * that is no rejection is followed by a Pi status and an ARMED text that is not a cancellation.
   */
  lemma ArmsExactly(envs: seq<Envelope>)
    ensures var a := ArmRun(envs); Round(envs) == Verdict(a.nacks, a.pos == 4)
  {
    RunFrom([], envs);
    Associative(envs, [], []);
    ArmsFromBegin(envs);
  }
}
