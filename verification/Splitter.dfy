/** The frame splitter of src/frame.rs and its per-byte specification. */
module Splitter {
  import opened Prelude
  import opened Wire
  import opened Frame

  // ---- the specification: a two-state automaton reading one byte at a time -----

  /** Frames completed so far and the partial frame held back. */
  datatype Scanned = Scanned(frames: seq<seq<byte>>, held: seq<byte>)

  /** Outside a frame only F0 matters; inside one only F1 does. */
  function Step(held: seq<byte>, b: byte): Scanned {
    if held == [] then Scanned([], if b == START then [b] else [])
    else if b == END then Scanned([held + [b]], [])
    else Scanned([], held + [b])
  }

  function Scan(held: seq<byte>, data: seq<byte>): Scanned
    decreases |data|
  {
    if data == [] then Scanned([], held)
    else
      var first := Step(held, data[0]);
      var rest := Scan(first.held, data[1..]);
      Scanned(first.frames + rest.frames, rest.held)
  }

  /** A held-back buffer is empty, or an unfinished frame: F0 first and no F1. */
  predicate Partial(held: seq<byte>) {
    held == [] || (held[0] == START && END !in held)
  }

  lemma {:induction false} ScanKeepsPartial(held: seq<byte>, data: seq<byte>)
    requires Partial(held)
    ensures Partial(Scan(held, data).held)
    decreases |data|
  {
    if data != [] { ScanKeepsPartial(Step(held, data[0]).held, data[1..]); }
  }

  /** Feeding two pieces in turn is feeding their concatenation. */
  lemma {:induction false} ScanAppend(held: seq<byte>, a: seq<byte>, b: seq<byte>)
    ensures Scan(held, a + b)
         == Scanned(Scan(held, a).frames + Scan(Scan(held, a).held, b).frames, Scan(Scan(held, a).held, b).held)
    decreases |a|
  {
    if a == [] {
      assert a + b == b;
    } else {
      assert (a + b)[1..] == a[1..] + b;
      ScanAppend(Step(held, a[0]).held, a[1..], b);
    }
  }

  lemma {:induction false} ScanNoise(data: seq<byte>)
    requires START !in data
    ensures Scan([], data) == Scanned([], [])
  {
    if data != [] { ScanNoise(data[1..]); }
  }

  /** Inside a frame, bytes without F1 are only accumulated. */
  lemma {:induction false} ScanInside(held: seq<byte>, data: seq<byte>)
    requires held != [] && END !in data
    ensures Scan(held, data) == Scanned([], held + data)
    decreases |data|
  {
    if data == [] {
      assert held + data == held;
    } else {
      var b, rest := data[0], data[1..];
      assert data == [b] + rest && b in data && forall x | x in rest :: x in data;
      assert Step(held, b) == Scanned([], held + [b]);
      ScanInside(held + [b], rest);
      Associative(held, [b], rest);
    }
  }

  lemma ScanPartial(held: seq<byte>)
    requires Partial(held) && held != []
    ensures Scan([], held) == Scanned([], held)
  {
    ScanInside([START], held[1..]);
    assert [START] + held[1..] == held;
  }

  lemma Unfinished(buf: seq<byte>)
    requires buf != [] && buf[0] == START && END !in buf[1..]
    ensures Partial(buf) && Scan([], buf) == Scanned([], buf)
  {
    assert buf == [START] + buf[1..];
    ScanPartial(buf);
  }

  /** A frame already begun ends at its first F1. */
  lemma ScanToEnd(held: seq<byte>, data: seq<byte>, end: nat)
    requires held != [] && end < |data| && END !in data[..end] && data[end] == END
    ensures Scan(held, data)
         == Scanned([held + data[..end + 1]] + Scan([], data[end + 1..]).frames, Scan([], data[end + 1..]).held)
  {
    var tail := data[end..];
    assert data == data[..end] + tail;
    ScanAppend(held, data[..end], tail);
    ScanInside(held, data[..end]);
    assert tail[1..] == data[end + 1..];
    assert held + data[..end] + [END] == held + data[..end + 1];
  }

  /** The buffer may be cut at its first F0, */
  lemma DropNoise(buf: seq<byte>, start: nat)
    requires start <= |buf| && START !in buf[..start]
    ensures Scan([], buf) == Scan([], buf[start..])
  {
    hide Scan;
    var rest := Scan([], buf[start..]);
    assert buf == buf[..start] + buf[start..];
    ScanAppend([], buf[..start], buf[start..]);
    ScanNoise(buf[..start]);
    Associative(rest.frames, [], []);
  }

  /** and after the first F1 that follows it. */
  lemma CutFrame(buf: seq<byte>, end: nat)
    requires end + 1 < |buf| && buf[0] == START
    requires buf[end + 1] == END && END !in buf[1..][..end]
    ensures Scan([], buf)
         == Scanned([buf[..end + 2]] + Scan([], buf[end + 2..]).frames, Scan([], buf[end + 2..]).held)
  {
    ScanToEnd([START], buf[1..], end);
    assert [START] + buf[1..][..end + 1] == buf[..end + 2];
    assert buf[1..][end + 1..] == buf[end + 2..];
    assert Step([], buf[0]) == Scanned([], [START]);
    var rest := Scan([START], buf[1..]);
    assert [] + rest.frames == rest.frames;
  }

  lemma Regroup<T>(a: seq<T>, x: T, b: seq<T>)
    ensures a + ([x] + b) == a + [x] + b
  {}

  // ---- the splitter --------------------------------------------------------

  function Position(s: seq<byte>, b: byte): (r: Option<nat>)
    ensures r.None? <==> b !in s
    ensures r.Some? ==> r.value < |s| && s[r.value] == b && b !in s[..r.value]
  {
    if s == [] then None
    else if s[0] == b then Some(0)
    else match Position(s[1..], b)
      case None => None
      case Some(p) => assert s[..p + 1] == [s[0]] + s[1..][..p]; Some(p + 1)
  }

  class FrameSplitter {
    var buf: seq<byte>

    constructor ()
      ensures buf == []
    {
      buf := [];
    }

    /** Whatever the chunking, the splitter is the automaton run over every byte. */
    method Feed(data: seq<byte>) returns (frames: seq<seq<byte>>)
      requires Partial(buf)
      modifies this
      ensures Partial(buf)
      ensures Scanned(frames, buf) == Scan(old(buf), data)
    {
      ghost var whole := Scan(old(buf), data);
      if buf == [] { assert [] + data == data; } else { ScanPartial(buf); }
      ScanAppend([], buf, data);
      hide Scan, Partial;
      Associative(whole.frames, [], []);
      ScanKeepsPartial(buf, data);
      buf := buf + data;
      frames := [];
      while true
        invariant Scanned(frames + Scan([], buf).frames, Scan([], buf).held) == whole
        decreases |buf|
      {
        var start := Position(buf, START);
        if start.None? {
          ScanNoise(buf);
          Associative(frames, [], []);
          buf := [];
          break;
        }
        if start.value > 0 {
          DropNoise(buf, start.value);
          buf := buf[start.value..];
        }
        var end := Position(buf[1..], END);
        if end.None? {
          Unfinished(buf);
          Associative(frames, [], []);
          break;
        }
        CutFrame(buf, end.value);
        var frame := buf[..end.value + 2];
        buf := buf[end.value + 2..];
        Regroup(frames, frame, Scan([], buf).frames);
        frames := frames + [frame];
      }
    }
  }

  // ---- chunking ------------------------------------------------------------

  function ScanChunks(held: seq<byte>, chunks: seq<seq<byte>>): Scanned
    decreases |chunks|
  {
    if chunks == [] then Scanned([], held)
    else
      var first := Scan(held, chunks[0]);
      var rest := ScanChunks(first.held, chunks[1..]);
      Scanned(first.frames + rest.frames, rest.held)
  }

  /** Segment boundaries are invisible. */
  lemma {:induction false} ChunkingInvisible(held: seq<byte>, chunks: seq<seq<byte>>)
    ensures ScanChunks(held, chunks) == Scan(held, Concat(chunks))
    decreases |chunks|
  {
    if chunks != [] {
      ChunkingInvisible(Scan(held, chunks[0]).held, chunks[1..]);
      ScanAppend(held, chunks[0], Concat(chunks[1..]));
    }
  }

  // ---- encoded frames ------------------------------------------------------

  function EncodeAll(fs: seq<RawFrame>): (r: seq<seq<byte>>)
    ensures |r| == |fs| && forall i :: 0 <= i < |r| ==> r[i] == Encode(fs[i])
  {
    seq(|fs|, i requires 0 <= i < |fs| => Encode(fs[i]))
  }

  /** An encoding is F0, an interior without F1, and F1. */
  lemma EncodedShape(f: RawFrame)
    ensures END !in Interior(f)
    ensures Encode(f) == [START] + Interior(f) + [END]
  {
    var data := Stuff(Header(f) + f.payload);
    StuffIsClean(Header(f) + f.payload);
    StuffIsClean(CsBytes(Sum16(data)));
  }

  /** One encoded frame completes exactly one frame, behind whatever was held. */
  lemma ScanEncoded(held: seq<byte>, f: RawFrame)
    requires Partial(held)
    ensures Scan(held, Encode(f)) == Scanned([held + Encode(f)], [])
  {
    EncodedShape(f);
    var wire := Encode(f);
    var inside := [START] + Interior(f);
    if held == [] {
      ScanToEnd([START], wire[1..], |Interior(f)|);
      assert wire[1..][..|Interior(f)|] == Interior(f);
      assert [START] + wire[1..][..|Interior(f)| + 1] == held + wire;
      assert wire[1..][|Interior(f)| + 1..] == [];
    } else {
      ScanToEnd(held, wire, |inside|);
      assert wire[..|inside|] == inside;
      assert wire[..|inside| + 1] == wire && wire[|inside| + 1..] == [];
    }
  }

  /**
   * Self-synchronisation: from any reachable buffer, n encoded frames come out as n frames
   * of which only the first can carry what was held before; nothing is left over.
   */
  lemma {:induction false} SelfSynchronises(held: seq<byte>, fs: seq<RawFrame>)
    requires Partial(held) && fs != []
    ensures Scan(held, Concat(EncodeAll(fs)))
         == Scanned([held + Encode(fs[0])] + EncodeAll(fs[1..]), [])
    decreases |fs|
  {
    var rest := Concat(EncodeAll(fs[1..]));
    assert EncodeAll(fs)[1..] == EncodeAll(fs[1..]);
    ScanAppend(held, Encode(fs[0]), rest);
    ScanEncoded(held, fs[0]);
    if |fs| > 1 {
      SelfSynchronises([], fs[1..]);
      assert [] + Encode(fs[1]) == Encode(fs[1]);
      assert EncodeAll(fs[1..]) == [Encode(fs[1])] + EncodeAll(fs[1..][1..]);
    } else {
      assert rest == [] && EncodeAll(fs[1..]) == [];
    }
  }

  function AllOk(fs: seq<RawFrame>): (r: seq<Result<RawFrame, WireError>>)
    ensures |r| == |fs|
  {
    seq(|fs|, i requires 0 <= i < |fs| => Ok(fs[i]))
  }

  function ParseAll(ws: seq<seq<byte>>): (r: seq<Result<RawFrame, WireError>>)
    ensures |r| == |ws|
  {
    seq(|ws|, i requires 0 <= i < |ws| => Parse(ws[i]))
  }

  /** However the stream of encodings is cut, a fresh splitter yields exactly those frames. */
  lemma EndToEnd(fs: seq<RawFrame>, chunks: seq<seq<byte>>)
    requires Concat(chunks) == Concat(EncodeAll(fs))
    ensures ScanChunks([], chunks) == Scanned(EncodeAll(fs), [])
    ensures ParseAll(EncodeAll(fs)) == AllOk(fs)
  {
    ChunkingInvisible([], chunks);
    if fs != [] {
      hide Scan, ScanChunks, Encode, Concat;
      SelfSynchronises([], fs);
      assert [] + Encode(fs[0]) == Encode(fs[0]);
      assert EncodeAll(fs) == [Encode(fs[0])] + EncodeAll(fs[1..]);
    }
    hide Parse, Encode;
    forall i | 0 <= i < |fs| ensures ParseAll(EncodeAll(fs))[i] == Ok(fs[i]) { RoundTrip(fs[i]); }
  }

  /** After arbitrary noise, all but the first of the frames that follow arrive intact. */
  lemma ResynchronisesAfterNoise(noise: seq<byte>, fs: seq<RawFrame>)
    requires fs != []
    ensures var out := Scan([], noise + Concat(EncodeAll(fs)));
            out.held == [] && |out.frames| >= |fs|
            && out.frames[|out.frames| - |fs| + 1..] == EncodeAll(fs[1..])
  {
    hide Scan, Encode, Partial, Concat;
    ScanAppend([], noise, Concat(EncodeAll(fs)));
    ScanKeepsPartial([], noise);
    SelfSynchronises(Scan([], noise).held, fs);
  }

  method ParseEach(wires: seq<seq<byte>>) returns (parsed: seq<Result<RawFrame, WireError>>)
    ensures parsed == ParseAll(wires)
  {
    parsed := [];
    for j := 0 to |wires|
      invariant parsed == ParseAll(wires[..j])
    {
      var r := ParseFrame(wires[j]);
      parsed := parsed + [r];
    }
    assert wires[..|wires|] == wires;
  }

  lemma ParseAllAppend(a: seq<seq<byte>>, b: seq<seq<byte>>)
    ensures ParseAll(a + b) == ParseAll(a) + ParseAll(b)
  {}

  lemma ScanChunksAppend(held: seq<byte>, a: seq<seq<byte>>, c: seq<byte>)
    ensures ScanChunks(held, a + [c])
         == Scanned(ScanChunks(held, a).frames + Scan(ScanChunks(held, a).held, c).frames,
                    Scan(ScanChunks(held, a).held, c).held)
  {
    ChunkingInvisible(held, a);
    ChunkingInvisible(held, a + [c]);
    ConcatAppend(a, [c]);
    assert Concat([c]) == c;
    ScanAppend(held, Concat(a), c);
  }

  /** The receive loop over a fresh splitter: feed each segment, parse what comes out. */
  method ReceiveStream(chunks: seq<seq<byte>>) returns (parsed: seq<Result<RawFrame, WireError>>, left: seq<byte>)
    ensures parsed == ParseAll(ScanChunks([], chunks).frames)
    ensures left == ScanChunks([], chunks).held
    ensures forall fs :: Concat(chunks) == Concat(EncodeAll(fs)) ==> parsed == AllOk(fs) && left == []
  {
    var splitter := new FrameSplitter();
    parsed := [];
    for i := 0 to |chunks|
      invariant Partial(splitter.buf)
      invariant parsed == ParseAll(ScanChunks([], chunks[..i]).frames)
      invariant splitter.buf == ScanChunks([], chunks[..i]).held
    {
      assert chunks[..i + 1] == chunks[..i] + [chunks[i]];
      ScanChunksAppend([], chunks[..i], chunks[i]);
      var frames := splitter.Feed(chunks[i]);
      var more := ParseEach(frames);
      ParseAllAppend(ScanChunks([], chunks[..i]).frames, frames);
      parsed := parsed + more;
    }
    assert chunks[..|chunks|] == chunks;
    left := splitter.buf;
    forall fs | Concat(chunks) == Concat(EncodeAll(fs)) ensures parsed == AllOk(fs) && left == [] {
      EndToEnd(fs, chunks);
    }
  }
}
