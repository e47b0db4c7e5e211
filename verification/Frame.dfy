/**
 * Wire frames (src/frame.rs): byte stuffing, checksum, parsing and encoding.
 */
module Frame {
  import opened Prelude
  import opened Wire

  const START: byte := 0xF0
  const END: byte := 0xF1
  const ESC: byte := 0xFD
  const RESERVED: byte := 0xFA

  datatype RawFrame = RawFrame(dest: BusAddr, src: BusAddr, typeId: byte, payload: seq<byte>)

  /** A decoded byte with the interior offset its wire form started at. */
  datatype Unstuffed = Unstuffed(b: byte, at: nat)

  // ---- stuffing ------------------------------------------------------------

  predicate NeedsEscape(b: byte) { b == START || b == END || b == ESC || b == RESERVED }

  function StuffByte(b: byte): (r: seq<byte>)
    ensures 1 <= |r| <= 2
    ensures |r| == 2 <==> NeedsEscape(b)
  {
    if b == START then [ESC, 1]
    else if b == END then [ESC, 2]
    else if b == ESC then [ESC, 3]
    else if b == RESERVED then [ESC, 4]
    else [b]
  }

  function Stuff(data: seq<byte>): seq<byte> {
    if data == [] then [] else StuffByte(data[0]) + Stuff(data[1..])
  }

  lemma {:induction false} StuffAppend(a: seq<byte>, b: seq<byte>)
    ensures Stuff(a + b) == Stuff(a) + Stuff(b)
  {
    if a == [] {
      assert a + b == b;
    } else {
      assert (a + b)[1..] == a[1..] + b;
      StuffAppend(a[1..], b);
    }
  }

  lemma StuffOneMore(data: seq<byte>, i: nat)
    requires i < |data|
    ensures Stuff(data[..i + 1]) == Stuff(data[..i]) + StuffByte(data[i])
  {
    assert data[..i + 1] == data[..i] + [data[i]];
    StuffAppend(data[..i], [data[i]]);
    assert [data[i]][1..] == [] && Stuff([data[i]]) == StuffByte(data[i]) + [];
  }

  method StuffBytes(data: seq<byte>) returns (out: seq<byte>)
    ensures out == Stuff(data)
  {
    out := [];
    for i := 0 to |data|
      invariant out == Stuff(data[..i])
    {
      StuffOneMore(data, i);
      hide Stuff;
      ghost var before := out;
      ghost var w := StuffByte(data[i]);
      if |w| == 2 { Associative(before, [w[0]], [w[1]]); }
      if data[i] == 0xF0 {
        out := out + [ESC];
        out := out + [0x01];
      } else if data[i] == 0xF1 {
        out := out + [ESC];
        out := out + [0x02];
      } else if data[i] == 0xFD {
        out := out + [ESC];
        out := out + [0x03];
      } else if data[i] == 0xFA {
        out := out + [ESC];
        out := out + [0x04];
      } else {
        out := out + [data[i]];
      }
    }
    assert data[..|data|] == data;
  }

  function EscapeCode(code: byte): (r: Option<byte>) {
    if code == 1 then Some(START)
    else if code == 2 then Some(END)
    else if code == 3 then Some(ESC)
    else if code == 4 then Some(RESERVED)
    else None
  }

  /** The decoded bytes of a stuffed suffix that starts at interior offset `at`. */
  function Unstuff(s: seq<byte>, at: nat): Result<seq<Unstuffed>, WireError> {
    if s == [] then Ok([])
    else if s[0] != ESC then Put(Unstuffed(s[0], at), Unstuff(s[1..], at + 1))
    else if |s| == 1 then Err(InvalidEscape(0, at))
    else match EscapeCode(s[1])
      case None => Err(InvalidEscape(s[1], at))
      case Some(b) => Put(Unstuffed(b, at), Unstuff(s[2..], at + 2))
  }

  function Put(u: Unstuffed, rest: Result<seq<Unstuffed>, WireError>): Result<seq<Unstuffed>, WireError> {
    if rest.Err? then rest else Ok([u] + rest.value)
  }

  function PutAll(us: seq<Unstuffed>, rest: Result<seq<Unstuffed>, WireError>): Result<seq<Unstuffed>, WireError> {
    if rest.Err? then rest else Ok(us + rest.value)
  }

  lemma PutAllStep(us: seq<Unstuffed>, u: Unstuffed, rest: Result<seq<Unstuffed>, WireError>)
    ensures PutAll(us, Put(u, rest)) == PutAll(us + [u], rest)
  {
    if rest.Ok? { assert us + ([u] + rest.value) == us + [u] + rest.value; }
  }

  /** The bytes of `data`, each tagged with the offset its stuffed form starts at. */
  function Tag(data: seq<byte>, at: nat): (r: seq<Unstuffed>)
    ensures |r| == |data|
  {
    if data == [] then [] else [Unstuffed(data[0], at)] + Tag(data[1..], at + |StuffByte(data[0])|)
  }

  function Bytes(us: seq<Unstuffed>): (r: seq<byte>)
    ensures |r| == |us| && forall i :: 0 <= i < |r| ==> r[i] == us[i].b
  {
    seq(|us|, i requires 0 <= i < |us| => us[i].b)
  }

  lemma {:induction false} TagAt(data: seq<byte>, at: nat, i: nat)
    requires i < |data|
    ensures Tag(data, at)[i] == Unstuffed(data[i], at + |Stuff(data[..i])|)
  {
    if i > 0 {
      TagAt(data[1..], at + |StuffByte(data[0])|, i - 1);
      assert data[..i][1..] == data[1..][..i - 1];
    }
  }

  lemma UnstuffOne(b: byte, more: seq<byte>, at: nat)
    ensures Unstuff(StuffByte(b) + more, at) == Put(Unstuffed(b, at), Unstuff(more, at + |StuffByte(b)|))
  {
    var w := StuffByte(b);
    assert (w + more)[|w|..] == more;
    assert (w + more)[0] == w[0];
    if NeedsEscape(b) { assert (w + more)[1] == w[1]; }
  }

  /** Unstuffing undoes stuffing, in front of any remainder. */
  lemma {:induction false} UnstuffStuffed(data: seq<byte>, rest: seq<byte>, at: nat)
    requires Unstuff(rest, at + |Stuff(data)|).Ok?
    ensures Unstuff(Stuff(data) + rest, at) == Ok(Tag(data, at) + Unstuff(rest, at + |Stuff(data)|).value)
  {
    hide Unstuff, StuffByte, NeedsEscape;
    var tail := Unstuff(rest, at + |Stuff(data)|).value;
    if data == [] {
      assert Stuff(data) + rest == rest;
      assert [] + tail == tail;
    } else {
      var w := StuffByte(data[0]);
      assert Stuff(data) + rest == w + (Stuff(data[1..]) + rest);
      assert at + |w| + |Stuff(data[1..])| == at + |Stuff(data)|;
      UnstuffOne(data[0], Stuff(data[1..]) + rest, at);
      UnstuffStuffed(data[1..], rest, at + |w|);
      assert [Unstuffed(data[0], at)] + (Tag(data[1..], at + |w|) + tail) == Tag(data, at) + tail;
    }
  }

  lemma UnstuffWhole(data: seq<byte>, at: nat)
    ensures Unstuff(Stuff(data), at) == Ok(Tag(data, at))
  {
    UnstuffStuffed(data, [], at);
    assert Stuff(data) + [] == Stuff(data);
    assert Tag(data, at) + [] == Tag(data, at);
  }

  // ---- checksum ------------------------------------------------------------

  function Sum(s: seq<byte>): nat {
    if s == [] then 0 else s[0] as int + Sum(s[1..])
  }

  /** The sum in a u16 accumulator, which wraps. */
  function Sum16(s: seq<byte>): (r: nat)
    ensures r < 0x1_0000
  {
    Sum(s) % 0x1_0000
  }

  lemma {:induction false} SumAppend(a: seq<byte>, b: seq<byte>)
    ensures Sum(a + b) == Sum(a) + Sum(b)
  {
    if a == [] {
      assert a + b == b;
    } else {
      assert (a + b)[1..] == a[1..] + b;
      SumAppend(a[1..], b);
    }
  }

  lemma {:induction false} StuffedSumBound(data: seq<byte>)
    ensures Sum(Stuff(data)) <= 257 * |data|
    ensures (forall b | b in data :: b == RESERVED) ==> Sum(Stuff(data)) == 257 * |data|
  {
    if data != [] {
      StuffedSumBound(data[1..]);
      assert forall b | b in data[1..] :: b in data;
      assert data[0] in data;
      SumAppend(StuffByte(data[0]), Stuff(data[1..]));
      var w := StuffByte(data[0]);
      assert Sum(w) == if |w| == 1 then w[0] as int else w[0] as int + w[1] as int;
    }
  }

  /** Addresses need no escape, and add at most 0x40 each. */
  lemma AddressSum(dest: BusAddr, src: BusAddr)
    ensures var addr := [AsByte(dest), AsByte(src)]; Stuff(addr) == addr && Sum(addr) <= 0x80
    ensures var addr := [AsByte(dest), AsByte(src)]; Sum(addr) == AsByte(dest) as int + AsByte(src) as int
  {
    var addr := [AsByte(dest), AsByte(src)];
    assert addr[1..] == [AsByte(src)] && addr[1..][1..] == [];
    assert Stuff(addr[1..]) == [AsByte(src)];
    assert Sum(addr[1..]) == AsByte(src) as int;
  }

  /** With at most 253 payload bytes the u16 sum in `encode` cannot overflow. */
  lemma ChecksumFits(f: RawFrame)
    requires |f.payload| <= 253
    ensures Sum(Stuff(Header(f) + f.payload)) < 0x1_0000
  {
    var rest := [f.typeId] + f.payload;
    var addr := [AsByte(f.dest), AsByte(f.src)];
    assert Header(f) + f.payload == addr + rest;
    AddressSum(f.dest, f.src);
    hide Stuff, Sum;
    StuffAppend(addr, rest);
    SumAppend(addr, Stuff(rest));
    StuffedSumBound(rest);
  }

  /** 253 is tight: this frame with one byte more overflows. */
  lemma ChecksumBoundTight()
    ensures exists f: RawFrame :: |f.payload| == 254 && Sum(Stuff(Header(f) + f.payload)) >= 0x1_0000
  {
    var payload: seq<byte> := seq(254, i => RESERVED);
    var f := RawFrame(Dsp, Dsp, RESERVED, payload);
    var rest := [RESERVED] + payload;
    var addr: seq<byte> := [0x40, 0x40];
    assert Header(f) + payload == addr + rest;
    StuffAppend(addr, rest);
    assert Stuff(addr) == addr;
    SumAppend(addr, Stuff(rest));
    assert Sum(addr) == 0x80;
    StuffedSumBound(rest);
    assert |f.payload| == 254;
  }

  // ---- encode --------------------------------------------------------------

  function Header(f: RawFrame): (h: seq<byte>)
    ensures |h| == 3
  {
    [AsByte(f.dest), AsByte(f.src), f.typeId]
  }

  function CsBytes(cs: nat): (r: seq<byte>)
    requires cs < 0x1_0000
    ensures |r| == 2 && r[0] as int * 0x100 + r[1] as int == cs
  {
    [cs / 0x100, cs % 0x100]
  }

  function Interior(f: RawFrame): seq<byte> {
    var data := Stuff(Header(f) + f.payload);
    data + Stuff(CsBytes(Sum16(data)))
  }

  function Encode(f: RawFrame): seq<byte> { [START] + Interior(f) + [END] }

  method EncodeFrame(f: RawFrame) returns (wire: seq<byte>)
    ensures wire == Encode(f)
  {
    var raw: seq<byte> := [];
    raw := raw + [AsByte(f.dest)];
    raw := raw + [AsByte(f.src)];
    raw := raw + [f.typeId];
    raw := raw + f.payload;
    assert raw == Header(f) + f.payload;
    var stuffedData := StuffBytes(raw);
    var cs := WrappingSum(stuffedData);
    var csBytes := [cs / 0x100, cs % 0x100];
    var stuffedCs := StuffBytes(csBytes);
    wire := [START];
    wire := wire + stuffedData;
    wire := wire + stuffedCs;
    wire := wire + [END];
  }

  method WrappingSum(s: seq<byte>) returns (cs: nat)
    ensures cs == Sum16(s)
  {
    cs := 0;
    for i := 0 to |s|
      invariant cs == Sum16(s[..i])
    {
      assert s[..i + 1] == s[..i] + [s[i]];
      SumAppend(s[..i], [s[i]]);
      assert Sum([s[i]]) == s[i] as int;
      cs := (cs + s[i] as int) % 0x1_0000;
    }
    assert s[..|s|] == s;
  }

  // ---- parse ---------------------------------------------------------------

  /** What a complete wire frame means, or the first error found in it. */
  function Parse(wire: seq<byte>): Result<RawFrame, WireError> {
    if |wire| < 7 then Err(FrameTooShort(|wire|))
    else if wire[0] != START then Err(MissingStart(wire[0]))
    else if wire[|wire| - 1] != END then Err(MissingEnd)
    else
      var interior := wire[1..|wire| - 1];
      match Unstuff(interior, 0)
      case Err(e) => Err(e)
      case Ok(us) => if |us| < 5 then Err(FrameTooShort(|wire|)) else Checked(interior, us)
  }

  function Checked(interior: seq<byte>, us: seq<Unstuffed>): Result<RawFrame, WireError>
    requires |us| >= 5
  {
    var n := |us|;
    var received := us[n - 2].b as int * 0x100 + us[n - 1].b as int;
    var end := us[n - 2].at;
    var computed := if end <= |interior| then Sum16(interior[..end]) else 0;
    if received != computed then Err(ChecksumMismatch(received, computed))
    else match FromByte(us[0].b)
      case Err(e) => Err(e)
      case Ok(dest) =>
        match FromByte(us[1].b)
        case Err(e) => Err(e)
        case Ok(src) => Ok(RawFrame(dest, src, us[2].b, Bytes(us[3..n - 2])))
  }

  lemma {:induction false} OffsetsInRange(s: seq<byte>, at: nat)
    requires Unstuff(s, at).Ok?
    ensures forall i | 0 <= i < |Unstuff(s, at).value| :: at <= Unstuff(s, at).value[i].at < at + |s|
  {
    if s == [] {
    } else if s[0] != ESC {
      OffsetsInRange(s[1..], at + 1);
    } else {
      OffsetsInRange(s[2..], at + 2);
    }
  }

  /** What precedes decoded byte j, or the whole text for j past the last, sums to at most 257 a decoded byte. */
  lemma {:induction false} UnstuffedSumBound(s: seq<byte>, at: nat, j: nat)
    requires Unstuff(s, at).Ok? && j <= |Unstuff(s, at).value|
    ensures var us := Unstuff(s, at).value;
            var cut := if j < |us| then us[j].at - at else |s|;
            0 <= cut <= |s| && Sum(s[..cut]) <= 257 * j
  {
    if s != [] && j == 0 {
      assert Unstuff(s, at).value[0].at == at;
    } else if s != [] {
      var k := if s[0] == ESC then 2 else 1;
      var us, rest := Unstuff(s, at).value, Unstuff(s[k..], at + k).value;
      UnstuffedSumBound(s[k..], at + k, j - 1);
      assert us[1..] == rest;
      var cut := if j < |us| then us[j].at - at else |s|;
      assert s[..cut] == s[..k] + s[k..][..cut - k];
      SumAppend(s[..k], s[k..][..cut - k]);
      FirstByteSum(s, k);
    }
  }

  lemma FirstByteSum(s: seq<byte>, k: nat)
    requires k <= |s| && (k == 1 || (k == 2 && s[0] == ESC && s[1] <= 4))
    ensures Sum(s[..k]) <= 257
  {
    assert Sum(s[..k]) == s[0] as int + Sum(s[..k][1..]);
    if k == 2 { assert s[..2][1..] == [s[1]] && Sum([s[1]]) == s[1] as int; }
  }

  /**
   * The sum in `parse` comes before the addresses are looked at, so its bound is one byte tighter than that
   * of `encode`: up to 252 payload bytes it cannot overflow,
   */
  lemma ParseSumFits(interior: seq<byte>)
    requires Unstuff(interior, 0).Ok? && 5 <= |Unstuff(interior, 0).value| <= 5 + 252
    ensures var us := Unstuff(interior, 0).value;
            us[|us| - 2].at <= |interior| && Sum(interior[..us[|us| - 2].at]) < 0x1_0000
  {
    UnstuffedSumBound(interior, 0, |Unstuff(interior, 0).value| - 2);
  }

  /** and with 253 it can. */
  lemma ParseSumBoundTight()
    ensures exists interior ::
              && Unstuff(interior, 0).Ok? && |Unstuff(interior, 0).value| == 5 + 253
              && var us := Unstuff(interior, 0).value;
                 us[|us| - 2].at <= |interior| && Sum(interior[..us[|us| - 2].at]) >= 0x1_0000
  {
    hide Unstuff, Stuff, Sum;
    var data: seq<byte> := seq(256, i => RESERVED);
    var cs: seq<byte> := [0, 0];
    var stuffed := Stuff(data);
    var interior := stuffed + Stuff(cs);
    UnstuffWhole(cs, |stuffed|);
    UnstuffStuffed(data, Stuff(cs), 0);
    TagAt(cs, |stuffed|, 0);
    assert Stuff(cs[..0]) == [] by { assert Stuff([]) == [] by { StuffNothing(); } assert cs[..0] == []; }
    var us := Unstuff(interior, 0).value;
    assert us == Tag(data, 0) + Tag(cs, |stuffed|);
    assert us[|us| - 2] == Tag(cs, |stuffed|)[0];
    assert interior[..|stuffed|] == stuffed;
    StuffedSumBound(data);
  }

  lemma StuffNothing()
    ensures Stuff([]) == []
  {}

  method ParseFrame(wire: seq<byte>) returns (r: Result<RawFrame, WireError>)
    ensures r == Parse(wire)
  {
    if |wire| < 7 { return Err(FrameTooShort(|wire|)); }
    if wire[0] != START { return Err(MissingStart(wire[0])); }
    if wire[|wire| - 1] != END { return Err(MissingEnd); }
    var interior := wire[1..|wire| - 1];
    var unstuffed := UnstuffInterior(interior);
    if unstuffed.Err? { return Err(unstuffed.error); }
    var us := unstuffed.value;
    var n := |us|;
    if n < 5 { return Err(FrameTooShort(|wire|)); }
    OffsetsInRange(interior, 0);
    var received := us[n - 2].b as int * 0x100 + us[n - 1].b as int;
    var computed := WrappingSum(interior[..us[n - 2].at]);
    if received != computed { return Err(ChecksumMismatch(received, computed)); }
    var dest := FromByte(us[0].b);
    if dest.Err? { return Err(dest.error); }
    var src := FromByte(us[1].b);
    if src.Err? { return Err(src.error); }
    return Ok(RawFrame(dest.value, src.value, us[2].b, Bytes(us[3..n - 2])));
  }

  /** The index loop of `parse`, with its `i += 2` and `i += 1` steps. */
  method UnstuffInterior(interior: seq<byte>) returns (r: Result<seq<Unstuffed>, WireError>)
    ensures r == Unstuff(interior, 0)
  {
    var us: seq<Unstuffed> := [];
    var i := 0;
    assert interior[0..] == interior;
    assert PutAll(us, Unstuff(interior, 0)) == Unstuff(interior, 0) by {
      if Unstuff(interior, 0).Ok? { assert [] + Unstuff(interior, 0).value == Unstuff(interior, 0).value; }
    }
    while i < |interior|
      invariant 0 <= i <= |interior|
      invariant Unstuff(interior, 0) == PutAll(us, Unstuff(interior[i..], i))
    {
      if interior[i] == ESC {
        if i + 1 >= |interior| { return Err(InvalidEscape(0x00, i)); }
        var decoded := EscapeCode(interior[i + 1]);
        if decoded.None? { return Err(InvalidEscape(interior[i + 1], i)); }
        assert interior[i..][2..] == interior[i + 2..];
        PutAllStep(us, Unstuffed(decoded.value, i), Unstuff(interior[i + 2..], i + 2));
        us := us + [Unstuffed(decoded.value, i)];
        i := i + 2;
      } else {
        assert interior[i..][1..] == interior[i + 1..];
        PutAllStep(us, Unstuffed(interior[i], i), Unstuff(interior[i + 1..], i + 1));
        us := us + [Unstuffed(interior[i], i)];
        i := i + 1;
      }
    }
    assert us + [] == us;
    return Ok(us);
  }

  // ---- round trip and canonical form ---------------------------------------

  /** Parsing an encoding gives the frame back, whatever bytes it carries. */
  lemma RoundTrip(f: RawFrame)
    ensures Parse(Encode(f)) == Ok(f)
  {
    hide Unstuff, Stuff, Tag, Sum16, CsBytes, Checked;
    var raw := Header(f) + f.payload;
    var data := Stuff(raw);
    var cs := CsBytes(Sum16(data));
    var interior := Interior(f);
    var wire := Encode(f);
    assert wire[1..|wire| - 1] == interior;
    UnstuffWhole(cs, |data|);
    UnstuffStuffed(raw, Stuff(cs), 0);
    var us := Tag(raw, 0) + Tag(cs, |data|);
    assert Unstuff(interior, 0) == Ok(us);
    StuffLonger(raw);
    StuffLonger(cs);
    CheckedRoundTrip(f, us);
  }

  lemma {:induction false} StuffLonger(s: seq<byte>)
    ensures |Stuff(s)| >= |s|
  {
    if s != [] { StuffLonger(s[1..]); }
  }

  lemma CheckedRoundTrip(f: RawFrame, us: seq<Unstuffed>)
    requires var raw := Header(f) + f.payload;
             us == Tag(raw, 0) + Tag(CsBytes(Sum16(Stuff(raw))), |Stuff(raw)|)
    ensures |us| >= 5 && Checked(Interior(f), us) == Ok(f)
  {
    var raw := Header(f) + f.payload;
    var data := Stuff(raw);
    var cs := CsBytes(Sum16(data));
    var n := |us|;
    TagAt(cs, |data|, 0);
    TagAt(cs, |data|, 1);
    assert Stuff(cs[..0]) == [];
    assert us[n - 2] == Unstuffed(cs[0], |data|) && us[n - 1].b == cs[1];
    assert Interior(f)[..|data|] == data;
    forall i | 0 <= i < |raw| ensures us[i].b == raw[i] { TagAt(raw, 0, i); }
    assert Bytes(us[3..n - 2]) == f.payload;
    assert us[0].b == AsByte(f.dest) && us[1].b == AsByte(f.src) && us[2].b == f.typeId;
  }

  /** No raw F0, F1 or FA. */
  predicate Clean(s: seq<byte>) {
    forall i | 0 <= i < |s| :: s[i] != START && s[i] != END && s[i] != RESERVED
  }

  lemma {:induction false} StuffIsClean(data: seq<byte>)
    ensures Clean(Stuff(data))
  {
    if data != [] { StuffIsClean(data[1..]); }
  }

  /** A clean stuffed text is the stuffing of what it decodes to, offsets included. */
  lemma {:induction false} CleanIsStuffed(s: seq<byte>, at: nat)
    requires Clean(s) && Unstuff(s, at).Ok?
    ensures Stuff(Bytes(Unstuff(s, at).value)) == s
    ensures Tag(Bytes(Unstuff(s, at).value), at) == Unstuff(s, at).value
  {
    if s != [] {
      var k := if s[0] == ESC then 2 else 1;
      var bs := Bytes(Unstuff(s, at).value);
      CleanIsStuffed(s[k..], at + k);
      assert s == s[..k] + s[k..];
      assert StuffByte(bs[0]) == s[..k];
      assert bs[1..] == Bytes(Unstuff(s[k..], at + k).value);
      hide Unstuff, StuffByte;
    }
  }

  /** An accepted wire is reproduced by encoding exactly when its interior has no raw F0, F1 or FA. */
  lemma CanonicalExactly(wire: seq<byte>)
    requires Parse(wire).Ok?
    ensures Encode(Parse(wire).value) == wire <==> Clean(wire[1..|wire| - 1])
  {
    var f := Parse(wire).value;
    var interior := wire[1..|wire| - 1];
    assert wire == [START] + interior + [END];
    if Encode(f) == wire {
      assert Encode(f)[1..|wire| - 1] == Interior(f);
      StuffIsClean(Header(f) + f.payload);
      StuffIsClean(CsBytes(Sum16(Stuff(Header(f) + f.payload))));
    }
    if Clean(interior) {
      CleanIsStuffed(interior, 0);
      CleanInterior(f, interior, Unstuff(interior, 0).value);
    }
  }

  lemma CleanInterior(f: RawFrame, interior: seq<byte>, us: seq<Unstuffed>)
    requires |us| >= 5 && Checked(interior, us) == Ok(f)
    requires Stuff(Bytes(us)) == interior && Tag(Bytes(us), 0) == us
    ensures Interior(f) == interior
  {
    var n := |us|;
    var bs := Bytes(us);
    var raw, cs := bs[..n - 2], bs[n - 2..];
    assert bs == raw + cs;
    StuffAppend(raw, cs);
    TagAt(bs, 0, n - 2);
    assert interior[..|Stuff(raw)|] == Stuff(raw);
    assert raw == Header(f) + f.payload;
    assert cs == CsBytes(Sum16(Stuff(raw)));
  }
}
