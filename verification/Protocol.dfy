/**
 * Messages and commands (src/protocol/mod.rs), keeping of each message what the state machines
 * inspect or hand on. A payload stands for the decoded struct.
 */
module Protocol {
  import opened Prelude
  import opened Wire

  type Payload = seq<byte>

  datatype DspStatusData = DspStatusData(state: byte, rest: Payload)

  datatype ParamData = Int24(value: int) | Float40(field: Payload)

  datatype Param = Param(id: byte, data: ParamData)

  /** What the device sends. */
  datatype Message =
    | DspStatus(dsp: DspStatusData)
    | AvrStatus(body: Payload)
    | PiStatus(body: Payload)
    | ConfigAck(body: Payload)
    | ConfigNack(body: Payload)
    | ModeAck
    | Text(text: string)
    | ModeSet(body: Payload)
    | ParamValue(body: Payload)
    | RadarCal(body: Payload)
    | ConfigResp(body: Payload)
    | AvrConfigResp(body: Payload)
    | DspQueryResp(body: Payload)
    | DevInfoResp(body: Payload)
    | ProdInfoResp(body: Payload)
    | NetConfigResp(text: string)
    | CalParamResp(body: Payload)
    | CalDataResp(body: Payload)
    | TimeSync(body: Payload)
    | CamState(body: Payload)
    | CamConfig(body: Payload)
    | FlightResult(body: Payload)
    | FlightResultV1(body: Payload)
    | ClubResult(body: Payload)
    | SpinResult(body: Payload)
    | SpeedProfile(body: Payload)
    | PrcData(body: Payload)
    | ClubPrc(body: Payload)
    | ShotText(text: string)
    | DspDebug(body: Payload)
    | Unknown(typeId: byte, body: Payload)
    | Other(typeId: byte, body: Payload)  // decoded, but looked at by no state machine

  function BodyOf(m: Message): Payload {
    if m.DspStatus? || m.ModeAck? || m.Text? || m.NetConfigResp? || m.ShotText? then [] else m.body
  }

  /** What the client sends. */
  datatype Command =
    | StatusPoll(piMode: bool)
    | SetMode(mode: byte)
    | AvrConfigCmd(arm: bool)
    | ParamReadReq(paramId: byte)
    | WriteParam(param: Param)
    | WriteRadarCal(cal: Payload)
    | DspQuery
    | ConfigQuery
    | AvrConfigQuery
    | DevInfoReq
    | ProdInfoReq(subQuery: byte)
    | NetConfigReq(queryPassword: bool)
    | CalParamReq
    | CalDataReq(subCmd: byte)
    | SyncTime
    | WriteCamState(state: byte)
    | WriteCamConfig(cam: Payload)
    | CamConfigReq
    | ShotDataAck
    | ShotResultReq

  datatype Action = Send(cmd: Command, dest: BusAddr)

  /** What has been written to the socket. */
  class Connection {
    var sent: seq<Action>

    constructor ()
      ensures sent == []
    {
      sent := [];
    }

    method SendAll(actions: seq<Action>)
      modifies this
      ensures sent == old(sent) + actions
    {
      sent := sent + actions;
    }
  }

  datatype Envelope = Envelope(src: BusAddr, message: Message)

  /** One round of an event loop: the time it runs at and what `recv` returns. */
  datatype Tick = Tick(now: nat, env: Option<Envelope>)

  function MessagesIn(ticks: seq<Tick>): seq<Envelope> {
    if ticks == [] then []
    else (if ticks[0].env.Some? then [ticks[0].env.value] else []) + MessagesIn(ticks[1..])
  }

  predicate Contains(text: string, part: string) {
    exists i :: 0 <= i <= |text| && OccursAt(text, part, i)
  }

  predicate OccursAt(text: string, part: string, i: nat) {
    i + |part| <= |text| && text[i..i + |part|] == part
  }

  /** The text that confirms arming. */
  predicate SaysArmed(m: Message) {
    m.Text? && Contains(m.text, "ARMED") && !Contains(m.text, "CANCELLED")
  }

  predicate SaysTrigger(m: Message) { m.ShotText? && Contains(m.text, "BALL TRIGGER") }

  predicate SaysProcessed(m: Message) { m.ShotText? && Contains(m.text, "PROCESSED") }

  predicate SaysIdle(m: Message) { m.ShotText? && Contains(m.text, "IDLE") }

  // ---- message filters -------------------------------------------------------

  predicate ShouldSkip(env: Envelope, expected: BusAddr) {
    env.src != expected
    || env.message.Text? || env.message.DspDebug? || env.message.CamState?
    || env.message.ConfigNack? || env.message.Unknown?
  }

  predicate ShouldSkipWithModeAck(env: Envelope, expected: BusAddr) {
    ShouldSkip(env, expected) || env.message.ModeAck?
  }

  predicate ShouldSkipForCal(env: Envelope, expected: BusAddr) {
    env.src != expected
    || env.message.Text? || env.message.DspDebug? || env.message.ConfigAck?
    || env.message.ConfigNack? || env.message.Unknown?
  }
}
