/**
 * What is on the wire (src/frame.rs and sections 1 and 2 of docs/WIRE.md), byte by byte: which wires are
 * frames, and where the checksum stands and what it counts.
 */
module FrameOnWire {
  import opened Prelude
  import opened Wire
  import opened Frame

  // ---- the documented bytes --------------------------------------------------

  /** The four escapes; every other byte stands for itself. */
  lemma EscapeTable()
    ensures Stuff([0xF0, 0xF1, 0xFD, 0xFA]) == [0xFD, 0x01, 0xFD, 0x02, 0xFD, 0x03, 0xFD, 0x04]
    ensures forall b: byte | b != 0xF0 && b != 0xF1 && b != 0xFD && b != 0xFA :: Stuff([b]) == [b]
    ensures forall code: byte :: EscapeCode(code).Some? <==> 1 <= code <= 4
  {
    var s: seq<byte> := [0xF0, 0xF1, 0xFD, 0xFA];
    assert s[1..] == [0xF1, 0xFD, 0xFA] && s[1..][1..] == [0xFD, 0xFA] && s[1..][1..][1..] == [0xFA];
    assert s[1..][1..][1..][1..] == [];
    assert Stuff(s[1..][1..][1..]) == [0xFD, 0x04];
    assert Stuff(s[1..][1..]) == [0xFD, 0x03] + [0xFD, 0x04];
    assert Stuff(s[1..]) == [0xFD, 0x02] + ([0xFD, 0x03] + [0xFD, 0x04]);
    assert Stuff(s) == [0xFD, 0x01] + ([0xFD, 0x02] + ([0xFD, 0x03] + [0xFD, 0x04]));
    forall b: byte | b != 0xF0 && b != 0xF1 && b != 0xFD && b != 0xFA ensures Stuff([b]) == [b] { PlainBytes([b]); }
  }

  /** The bytes between the markers of the worked example, and their sum. */
  const EXAMPLE_DATA: seq<byte> := [0x40, 0x10, 0xAA, 0x01, 0x01]

  lemma ExampleSum()
    ensures Stuff(EXAMPLE_DATA) == EXAMPLE_DATA && Sum(EXAMPLE_DATA) == 0xFC
    ensures Stuff([0x00, 0xFC]) == [0x00, 0xFC]
  {
    var d := EXAMPLE_DATA;
    assert d[1..] == [0x10, 0xAA, 0x01, 0x01] && d[2..] == [0xAA, 0x01, 0x01] && d[3..] == [0x01, 0x01] && d[4..] == [0x01];
    assert d[1..][1..] == d[2..] && d[2..][1..] == d[3..] && d[3..][1..] == d[4..] && d[4..][1..] == [];
    assert Sum(d[4..]) == 1 && Sum(d[3..]) == 2 && Sum(d[2..]) == 0xAC && Sum(d[1..]) == 0xBC;
    PlainBytes(d);
    PlainBytes([0x00, 0xFC]);
  }

  lemma {:induction false} PlainBytes(s: seq<byte>)
    requires forall i | 0 <= i < |s| :: s[i] != 0xF0 && s[i] != 0xF1 && s[i] != 0xFD && s[i] != 0xFA
    ensures Stuff(s) == s
  {
    if s != [] {
      PlainBytes(s[1..]);
      assert [s[0]] + s[1..] == s;
    }
  }

  /** The worked example, both ways: a status poll from the app to the DSP. */
  lemma DocumentedFrame()
    ensures var f := RawFrame(Dsp, App, 0xAA, [0x01, 0x01]);
            var wire := [0xF0, 0x40, 0x10, 0xAA, 0x01, 0x01, 0x00, 0xFC, 0xF1];
            Encode(f) == wire && Parse(wire) == Ok(f)
  {
    hide Stuff, Sum, Parse;
    var f := RawFrame(Dsp, App, 0xAA, [0x01, 0x01]);
    ExampleSum();
    assert Header(f) + f.payload == EXAMPLE_DATA;
    assert CsBytes(0xFC) == [0x00, 0xFC];
    RoundTrip(f);
  }

  // ---- where the checksum stands -----------------------------------------------

  /** How many bytes the first decoded byte takes. */
  function Step(s: seq<byte>): nat { if s != [] && s[0] == ESC then 2 else 1 }

  /** The first decoded byte depends on those alone. */
  lemma UnstuffFirst(s: seq<byte>, at: nat, n: nat)
    requires s != [] && Unstuff(s, at).Ok? && Step(s) <= n <= |s|
    ensures var (us, rest) := (Unstuff(s, at).value, Unstuff(s[Step(s)..], at + Step(s)));
            && rest.Ok? && us != [] && us[0].at == at && us == [us[0]] + rest.value
            && Unstuff(s[..n], at) == Put(us[0], Unstuff(s[..n][Step(s)..], at + Step(s)))
  {
    assert s[..n] != [] && s[..n][0] == s[0] && (s[0] == ESC ==> s[..n][1] == s[1]);
  }

  lemma StepFits(s: seq<byte>, at: nat)
    requires Unstuff(s, at).Ok? && Unstuff(s, at).value != []
    ensures s != [] && 0 < Step(s) <= |s|
  {}

  /** Where the decoded byte j starts in these n bytes, or their end. */
  function CutAt(us: seq<Unstuffed>, j: nat, at: nat, n: nat): int { if j < |us| then us[j].at - at else n }

  /** Unstuffing may be cut in front of any decoded byte. */
  lemma {:induction false} UnstuffSplit(s: seq<byte>, at: nat, j: nat)
    requires Unstuff(s, at).Ok? && j <= |Unstuff(s, at).value|
    ensures var us := Unstuff(s, at).value;
            var cut := CutAt(us, j, at, |s|);
            && 0 <= cut <= |s|
            && Unstuff(s[..cut], at) == Ok(us[..j]) && Unstuff(s[cut..], at + cut) == Ok(us[j..])
  {
    hide Unstuff, Step, CutAt;
    var us := Unstuff(s, at).value;
    if j == 0 {
      CutAtFirst(s, at);
      assert s[..0] == [] && s[0..] == s && us[..0] == [] && us[0..] == us;
    } else {
      StepFits(s, at);
      UnstuffFirst(s, at, |s|);
      var k := Step(s);
      var rest := Unstuff(s[k..], at + k).value;
      UnstuffSplit(s[k..], at + k, j - 1);
      CutBehindFirst(us, j, at, k, |s|);
      var cut := CutAt(us, j, at, |s|);
      UnstuffFirst(s, at, cut);
      CutBehind(s, k, cut);
      ConsCut(us[0], rest, j);
    }
  }

  lemma CutAtFirst(s: seq<byte>, at: nat)
    requires Unstuff(s, at).Ok?
    ensures CutAt(Unstuff(s, at).value, 0, at, |s|) == 0 && Unstuff([], at) == Ok([])
  {}

  lemma CutBehindFirst(us: seq<Unstuffed>, j: nat, at: nat, k: nat, n: nat)
    requires us != [] && j > 0 && k <= n
    ensures CutAt(us, j, at, n) == k + CutAt(us[1..], j - 1, at + k, n - k)
  {}

  lemma CutBehind<T>(s: seq<T>, k: nat, cut: nat)
    requires k <= cut <= |s|
    ensures s[..cut][k..] == s[k..][..cut - k] && s[cut..] == s[k..][cut - k..]
  {}

  lemma ConsCut<T>(x: T, rest: seq<T>, j: nat)
    requires 0 < j <= |rest| + 1
    ensures ([x] + rest)[..j] == [x] + rest[..j - 1] && ([x] + rest)[j..] == rest[j - 1..]
  {}

  /** From `cut` to the end marker the wire holds two bytes: the 16-bit sum of all bytes between F0 and `cut`. */
  predicate ChecksumAt(wire: seq<byte>, cut: nat) {
    && 1 <= cut < |wire|
    && var cs := Unstuff(wire[cut..|wire| - 1], cut - 1);
       cs.Ok? && |cs.value| == 2 && cs.value[0].b as int * 0x100 + cs.value[1].b as int == Sum(wire[1..cut]) % 0x1_0000
  }

  /** The bytes from F0 to `cut` are these, stuffed. */
  predicate DataBefore(wire: seq<byte>, cut: nat, data: seq<byte>) {
    1 <= cut <= |wire| && var us := Unstuff(wire[1..cut], 0); us.Ok? && Bytes(us.value) == data
  }

  /**
   * Every encoding carries the destination, source, type and payload in that order, then the sum of their
   * stuffed bytes, the start marker not counted; up to 253 payload bytes it is the sum itself.
   */
  lemma EncodeChecksum(f: RawFrame)
    ensures exists cut: nat ::
              && ChecksumAt(Encode(f), cut)
              && DataBefore(Encode(f), cut, [AsByte(f.dest), AsByte(f.src), f.typeId] + f.payload)
              && (|f.payload| <= 253 ==> Sum(Encode(f)[1..cut]) < 0x1_0000)
  {
    var raw := Header(f) + f.payload;
    var data := Stuff(raw);
    var cs := CsBytes(Sum(data) % 0x1_0000);
    var wire, cut := Encode(f), 1 + |data|;
    hide Unstuff, Stuff, Sum, CsBytes;
    assert wire[1..cut] == data && wire[cut..|wire| - 1] == Stuff(cs);
    UnstuffWhole(raw, 0);
    UnstuffWhole(cs, cut - 1);
    TagBytes(raw, 0);
    TagBytes(cs, cut - 1);
    if |f.payload| <= 253 { ChecksumFits(f); }
    assert ChecksumAt(wire, cut) && DataBefore(wire, cut, raw);
  }

  lemma TagBytes(data: seq<byte>, at: nat)
    ensures Bytes(Tag(data, at)) == data
  {
    forall i | 0 <= i < |data| ensures Tag(data, at)[i].b == data[i] { TagAt(data, at, i); }
  }

  // ---- which wires are frames ---------------------------------------------------

  /** The addresses of docs/WIRE.md. */
  predicate IsBus(b: byte) { b == 0x10 || b == 0x12 || b == 0x30 || b == 0x40 }

  /** The value of the last two decoded bytes, and the sum of what precedes them on the wire. */
  function Carried(us: seq<Unstuffed>): int
    requires |us| >= 2
  {
    us[|us| - 2].b as int * 0x100 + us[|us| - 1].b as int
  }

  function Counted(interior: seq<byte>, us: seq<Unstuffed>): int
    requires |us| >= 2 && us[|us| - 2].at <= |interior|
  {
    Sum(interior[..us[|us| - 2].at]) % 0x1_0000
  }

  /** Long enough, between markers, and well escaped: the bytes decoded with their offsets. */
  predicate Framed(wire: seq<byte>, us: seq<Unstuffed>) {
    && |wire| >= 7 && wire[0] == 0xF0 && wire[|wire| - 1] == 0xF1
    && Unstuff(wire[1..|wire| - 1], 0) == Ok(us) && |us| >= 5
  }

  lemma CutInside(wire: seq<byte>, us: seq<Unstuffed>)
    requires Framed(wire, us)
    ensures us[|us| - 2].at <= |wire| - 2
  {
    OffsetsInRange(wire[1..|wire| - 1], 0);
  }

  /**
   * A wire is accepted exactly when it is framed, both addresses are bus addresses, and the checksum it carries
   * is the sum it should be; one that carries another is refused with both values.
   */
  lemma AcceptedExactly(wire: seq<byte>, us: seq<Unstuffed>)
    requires Framed(wire, us)
    ensures us[|us| - 2].at <= |wire| - 2
    ensures Parse(wire).Ok? <==>
              Carried(us) == Counted(wire[1..|wire| - 1], us) && IsBus(us[0].b) && IsBus(us[1].b)
    ensures Carried(us) != Counted(wire[1..|wire| - 1], us) ==>
              Parse(wire) == Err(ChecksumMismatch(Carried(us), Counted(wire[1..|wire| - 1], us)))
  {
    CutInside(wire, us);
    hide Unstuff, Sum;
    BusBytes(us[0].b);
    BusBytes(us[1].b);
  }

  lemma BusBytes(b: byte)
    ensures FromByte(b).Ok? <==> IsBus(b)
    ensures FromByte(0x10) == Ok(App) && FromByte(0x12) == Ok(Pi)
    ensures FromByte(0x30) == Ok(Avr) && FromByte(0x40) == Ok(Dsp)
  {}

  /** What is not framed is refused. */
  lemma OnlyFramedAccepted(wire: seq<byte>)
    ensures Parse(wire).Ok? ==> exists us :: Framed(wire, us)
  {
    hide Sum;
    if Parse(wire).Ok? { assert Framed(wire, Unstuff(wire[1..|wire| - 1], 0).value); }
  }

  /** Every accepted wire has its checksum in place, behind the fields of the frame it is parsed to. */
  lemma AcceptedChecksum(wire: seq<byte>)
    requires Parse(wire).Ok?
    ensures var f := Parse(wire).value;
            exists cut: nat ::
              ChecksumAt(wire, cut) && DataBefore(wire, cut, [AsByte(f.dest), AsByte(f.src), f.typeId] + f.payload)
  {
    hide Unstuff, Sum;
    var interior := wire[1..|wire| - 1];
    var us := Unstuff(interior, 0).value;
    var n := |us|;
    var f := Parse(wire).value;
    UnstuffSplit(interior, 0, n - 2);
    OffsetsInRange(interior, 0);
    var cut := 1 + us[n - 2].at;
    assert wire[1..cut] == interior[..cut - 1] && wire[cut..|wire| - 1] == interior[cut - 1..];
    assert us[n - 2..][0] == us[n - 2] && us[n - 2..][1] == us[n - 1];
    assert Bytes(us[..n - 2]) == [AsByte(f.dest), AsByte(f.src), f.typeId] + f.payload;
    assert ChecksumAt(wire, cut);
  }

  // ---- what is refused, and as what ----------------------------------------------

  /** Well escaped up to a marker that no escape code follows. */
  lemma {:induction false} BadEscape(good: seq<byte>, rest: seq<byte>, at: nat)
    requires Unstuff(good, at).Ok? && rest != [] && rest[0] == 0xFD && (|rest| > 1 ==> !(1 <= rest[1] <= 4))
    ensures Unstuff(good + rest, at) == Err(InvalidEscape(if |rest| == 1 then 0 else rest[1], at + |good|))
    decreases |good|
  {
    if good == [] {
      assert good + rest == rest;
    } else {
      UnstuffFirst(good, at, |good|);
      var k := Step(good);
      assert (good + rest)[k..] == good[k..] + rest && (good + rest)[0] == good[0];
      assert k == 2 ==> (good + rest)[1] == good[1];
      BadEscape(good[k..], rest, at + k);
    }
  }

  /** The length is looked at first, then the two markers. */
  lemma RefusedUnframed(wire: seq<byte>)
    ensures |wire| < 7 ==> Parse(wire) == Err(FrameTooShort(|wire|))
    ensures |wire| >= 7 && wire[0] != 0xF0 ==> Parse(wire) == Err(MissingStart(wire[0]))
    ensures |wire| >= 7 && wire[0] == 0xF0 && wire[|wire| - 1] != 0xF1 ==> Parse(wire) == Err(MissingEnd)
  {}

  /** Then the escapes from the left: the offset reported is that of the first bad one, counted from behind F0. */
  lemma RefusedEscape(good: seq<byte>, rest: seq<byte>)
    requires Unstuff(good, 0).Ok? && rest != [] && rest[0] == 0xFD && (|rest| > 1 ==> !(1 <= rest[1] <= 4))
    requires |good + rest| >= 5
    ensures Parse([0xF0] + (good + rest) + [0xF1]) == Err(InvalidEscape(if |rest| == 1 then 0 else rest[1], |good|))
  {
    hide Unstuff, Checked;
    var wire := [0xF0] + (good + rest) + [0xF1];
    assert wire[1..|wire| - 1] == good + rest;
    BadEscape(good, rest, 0);
  }

  /** Then the number of decoded bytes; behind the checksum, the destination before the source. */
  lemma RefusedFields(wire: seq<byte>, us: seq<Unstuffed>)
    requires |wire| >= 7 && wire[0] == 0xF0 && wire[|wire| - 1] == 0xF1 && Unstuff(wire[1..|wire| - 1], 0) == Ok(us)
    ensures |us| < 5 ==> Parse(wire) == Err(FrameTooShort(|wire|))
    ensures |us| >= 5 ==> us[|us| - 2].at <= |wire| - 2
    ensures |us| >= 5 && Carried(us) == Counted(wire[1..|wire| - 1], us) ==>
              && (!IsBus(us[0].b) ==> Parse(wire) == Err(UnknownBusAddr(us[0].b)))
              && (IsBus(us[0].b) && !IsBus(us[1].b) ==> Parse(wire) == Err(UnknownBusAddr(us[1].b)))
  {
    if |us| >= 5 {
      CutInside(wire, us);
      BusBytes(us[0].b);
      BusBytes(us[1].b);
    }
    hide Unstuff, Sum;
  }
}
