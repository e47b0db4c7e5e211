/** Bus addresses (src/addr.rs) and wire errors (src/error.rs). */
module Wire {
  import opened Prelude

  datatype BusAddr = App | Pi | Avr | Dsp

  datatype WireError =
    | FrameTooShort(len: nat)
    | MissingStart(got: byte)
    | MissingEnd
    | InvalidEscape(code: byte, offset: nat)
    | ChecksumMismatch(expected: nat, computed: nat)
    | UnknownBusAddr(addr: byte)
    | PayloadTooShort(need: nat, have: nat)
    | InvalidPayload

  function AsByte(a: BusAddr): byte {
    match a
    case App => 0x10
    case Pi => 0x12
    case Avr => 0x30
    case Dsp => 0x40
  }

  function FromByte(b: byte): (r: Result<BusAddr, WireError>)
    ensures r.Ok? <==> exists a :: AsByte(a) == b
    ensures r.Ok? ==> AsByte(r.value) == b
    ensures r.Err? ==> r.error == UnknownBusAddr(b)
  {
    if b == 0x10 then assert AsByte(App) == b; Ok(App)
    else if b == 0x12 then assert AsByte(Pi) == b; Ok(Pi)
    else if b == 0x30 then assert AsByte(Avr) == b; Ok(Avr)
    else if b == 0x40 then assert AsByte(Dsp) == b; Ok(Dsp)
    else Err(UnknownBusAddr(b))
  }
}
