/** Delivery of frames to the caller: `BinaryConnection::recv` of src/conn.rs. */
module Conn {
  import opened Prelude
  import opened Wire
  import opened Frame
  import opened Splitter

  /** One answer of the stream to a read; `Data([])` is the end of the stream. */
  datatype Read = Data(bytes: seq<byte>) | WouldBlock | Failed

  datatype Received<M> = Message(m: M) | NoData | WireErr(error: WireError) | Disconnected | IoErr

  // ---- specification ---------------------------------------------------------

  /** The reads still to come, the splitter's buffer, and the stash (popped from its end). */
  datatype State = State(inbound: seq<Read>, held: seq<byte>, pending: seq<seq<byte>>)

  /** In which order a read's frames are taken: as the source does, or as its comment intends. */
  datatype Policy = PopThenReverse | ReverseThenPop

  datatype Pulled = Pulled(what: What, next: State)

  datatype What = Handed(wire: seq<byte>) | Quiet | Ended | Broken

  function First(policy: Policy, frames: seq<seq<byte>>): seq<byte>
    requires frames != []
  {
    match policy
    case PopThenReverse => frames[|frames| - 1]
    case ReverseThenPop => frames[0]
  }

  function Stash(policy: Policy, frames: seq<seq<byte>>): seq<seq<byte>>
    requires frames != []
  {
    match policy
    case PopThenReverse => Reverse(frames[..|frames| - 1])
    case ReverseThenPop => Reverse(frames[1..])
  }

  function Pull(policy: Policy, s: State): Pulled
    decreases |s.inbound|
  {
    if s.pending != [] then
      Pulled(Handed(s.pending[|s.pending| - 1]), s.(pending := s.pending[..|s.pending| - 1]))
    else if s.inbound == [] then Pulled(Quiet, s)
    else
      var s' := s.(inbound := s.inbound[1..]);
      match s.inbound[0]
      case WouldBlock => Pulled(Quiet, s')
      case Failed => Pulled(Broken, s')
      case Data(bytes) =>
        if bytes == [] then Pulled(Ended, s')
        else
          var got := Scan(s.held, bytes);
          if got.frames == [] then Pull(policy, s'.(held := got.held))
          else Pulled(Handed(First(policy, got.frames)), s'.(held := got.held, pending := Stash(policy, got.frames)))
  }

  function DecodeWire<M>(decode: RawFrame -> Result<M, WireError>, wire: seq<byte>): Received<M> {
    match Parse(wire)
    case Err(e) => WireErr(e)
    case Ok(f) =>
      match decode(f)
      case Err(e) => WireErr(e)
      case Ok(m) => Message(m)
  }

  function Report<M>(decode: RawFrame -> Result<M, WireError>, what: What): Received<M> {
    match what
    case Handed(wire) => DecodeWire(decode, wire)
    case Quiet => NoData
    case Ended => Disconnected
    case Broken => IoErr
  }

  // ---- the connection --------------------------------------------------------

  class BinaryConnection<M> {
    const decode: RawFrame -> Result<M, WireError>
    const splitter: FrameSplitter
    var inbound: seq<Read>  // what the stream will answer
    var pending: seq<seq<byte>>

    constructor (decode: RawFrame -> Result<M, WireError>, inbound: seq<Read>)
      ensures Abs() == State(inbound, [], []) && this.decode == decode && fresh(splitter)
    {
      this.decode := decode;
      this.splitter := new FrameSplitter();
      this.inbound := inbound;
      this.pending := [];
    }

    ghost function Abs(): State
      reads this, splitter
    {
      State(inbound, splitter.buf, pending)
    }

    /** Hands over one frame, or its decode error, and leaves the others pending. */
    method Recv() returns (r: Received<M>)
      requires Partial(splitter.buf)
      modifies this, splitter
      ensures Partial(splitter.buf)
      ensures r == Report(decode, Pull(PopThenReverse, old(Abs())).what)
      ensures Abs() == Pull(PopThenReverse, old(Abs())).next
    {
      hide Scan, Parse;
      ghost var whole := Pull(PopThenReverse, Abs());
      while true
        invariant Partial(splitter.buf)
        invariant Pull(PopThenReverse, Abs()) == whole
        decreases |inbound|
      {
        if pending != [] {
          var wire := pending[|pending| - 1];
          pending := pending[..|pending| - 1];
          return DecodeReceived(wire);
        }
        if inbound == [] { return NoData; }
        var answer := inbound[0];
        inbound := inbound[1..];
        match answer
        case WouldBlock => return NoData;
        case Failed => return IoErr;
        case Data(bytes) =>
          if bytes == [] { return Disconnected; }
          var frames := splitter.Feed(bytes);
          if frames != [] {
            var first := frames[|frames| - 1];
            frames := frames[..|frames| - 1];
            frames := Reverse(frames);
            pending := pending + frames;
            return DecodeReceived(first);
          }
      }
    }

    function DecodeReceived(wire: seq<byte>): (r: Received<M>)
      ensures r == Report(decode, Handed(wire))
    {
      DecodeWire(decode, wire)
    }
  }

  // ---- delivery order --------------------------------------------------------

  /** The frames completed by each read in turn. */
  function Arrivals(held: seq<byte>, inbound: seq<Read>): seq<seq<seq<byte>>>
    decreases |inbound|
  {
    if inbound == [] then []
    else match inbound[0]
      case Data(bytes) => [Scan(held, bytes).frames] + Arrivals(Scan(held, bytes).held, inbound[1..])
      case _ => Arrivals(held, inbound[1..])
  }

  /** The order in which one read's frames reach the caller: 1..k, or k,1,..,k-1. */
  function Order(policy: Policy, frames: seq<seq<byte>>): (r: seq<seq<byte>>)
    ensures |r| == |frames|
  {
    match policy
    case ReverseThenPop => frames
    case PopThenReverse =>
      if frames == [] then [] else [frames[|frames| - 1]] + frames[..|frames| - 1]
  }

  function OrderAll(policy: Policy, batches: seq<seq<seq<byte>>>): (r: seq<seq<seq<byte>>>)
    ensures |r| == |batches| && forall i :: 0 <= i < |r| ==> r[i] == Order(policy, batches[i])
  {
    seq(|batches|, i requires 0 <= i < |batches| => Order(policy, batches[i]))
  }

  /** Everything still owed to the caller, in the order it will be handed over. */
  function Owed(policy: Policy, s: State): seq<seq<byte>> {
    Reverse(s.pending) + Concat(OrderAll(policy, Arrivals(s.held, s.inbound)))
  }

  function Wires(what: What): seq<seq<byte>> { if what.Handed? then [what.wire] else [] }

  lemma StashOrder(policy: Policy, frames: seq<seq<byte>>)
    requires frames != []
    ensures [First(policy, frames)] + Reverse(Stash(policy, frames)) == Order(policy, frames)
  {
    match policy
    case PopThenReverse => ReverseTwice(frames[..|frames| - 1]);
    case ReverseThenPop => ReverseTwice(frames[1..]);
  }

  lemma OrderAllCons(policy: Policy, b: seq<seq<byte>>, rest: seq<seq<seq<byte>>>)
    ensures Concat(OrderAll(policy, [b] + rest)) == Order(policy, b) + Concat(OrderAll(policy, rest))
  {
    assert OrderAll(policy, [b] + rest)[1..] == OrderAll(policy, rest);
  }

  lemma PopPays(policy: Policy, s: State)
    requires s.pending != []
    ensures var p := Pull(policy, s); Wires(p.what) + Owed(policy, p.next) == Owed(policy, s)
  {
    hide Scan, Concat, OrderAll, Arrivals;
    var n := |s.pending| - 1;
    var init, last := s.pending[..n], [s.pending[n]];
    assert s.pending == init + last;
    ReverseAppend(init, last);
    assert last[1..] == [] && Reverse(last) == last;
    hide Reverse;
    Associative(last, Reverse(init), Concat(OrderAll(policy, Arrivals(s.held, s.inbound))));
  }

  /** What is owed before a read of bytes, split at that read. */
  lemma OwedAtRead(policy: Policy, s: State)
    requires s.pending == [] && s.inbound != [] && s.inbound[0].Data?
    ensures Owed(policy, s)
         == Order(policy, Scan(s.held, s.inbound[0].bytes).frames)
            + Owed(policy, State(s.inbound[1..], Scan(s.held, s.inbound[0].bytes).held, []))
  {
    hide Scan, Order, Concat, OrderAll;
    var got := Scan(s.held, s.inbound[0].bytes);
    OrderAllCons(policy, got.frames, Arrivals(got.held, s.inbound[1..]));
  }

  lemma ReadPays(policy: Policy, s: State)
    requires s.pending == [] && s.inbound != [] && s.inbound[0].Data?
    requires Scan(s.held, s.inbound[0].bytes).frames != []
    ensures var p := Pull(policy, s); Wires(p.what) + Owed(policy, p.next) == Owed(policy, s)
  {
    assert s.inbound[0].bytes != [];
    hide Scan, First, Stash, Order, Concat, OrderAll;
    var got := Scan(s.held, s.inbound[0].bytes);
    OwedAtRead(policy, s);
    StashOrder(policy, got.frames);
    var later := Concat(OrderAll(policy, Arrivals(got.held, s.inbound[1..])));
    assert [] + later == later;
    hide Arrivals;
    Associative([First(policy, got.frames)], Reverse(Stash(policy, got.frames)), later);
  }

  lemma BarrenReadOwes(policy: Policy, s: State)
    requires s.pending == [] && s.inbound != [] && s.inbound[0].Data?
    requires Scan(s.held, s.inbound[0].bytes).frames == []
    ensures Owed(policy, s.(inbound := s.inbound[1..], held := Scan(s.held, s.inbound[0].bytes).held))
         == Owed(policy, s)
  {
    hide Scan, Arrivals;
    OwedAtRead(policy, s);
  }

  /** A frame handed over is the next one owed; no call loses, repeats or reorders any. */
  lemma {:induction false} PullPaysInOrder(policy: Policy, s: State)
    ensures var p := Pull(policy, s); Wires(p.what) + Owed(policy, p.next) == Owed(policy, s)
    decreases |s.inbound|
  {
    if s.pending != [] {
      PopPays(policy, s);
    } else if s.inbound != [] && s.inbound[0].Data? {
      if Scan(s.held, s.inbound[0].bytes).frames != [] {
        ReadPays(policy, s);
      } else {
        BarrenReadOwes(policy, s);
        if s.inbound[0].bytes != [] {
          PullPaysInOrder(policy, s.(inbound := s.inbound[1..], held := Scan(s.held, s.inbound[0].bytes).held));
        }
      }
    }
  }

  /** The reads one call can go through: those before the next answer that carries no bytes. */
  function Burst(inbound: seq<Read>): seq<Read> {
    if inbound == [] || !inbound[0].Data? || inbound[0].bytes == [] then [] else [inbound[0]] + Burst(inbound[1..])
  }

  /**
   * A call hands over a frame exactly when one is pending, or completed by the reads up to the next answer
   * that carries no bytes; otherwise it consumes those reads and that answer and reports the latter.
   */
  lemma {:induction false} PullHandsOverExactly(policy: Policy, s: State)
    ensures var p := Pull(policy, s);
            && (p.what.Handed? <==> s.pending != [] || Concat(Arrivals(s.held, Burst(s.inbound))) != [])
            && |p.next.inbound| <= |s.inbound|
            && (!p.what.Handed? ==> p.next.inbound == s.inbound[Spent(s.inbound)..] && p.what == Answer(s.inbound))
    decreases |s.inbound|
  {
    hide Scan;
    if s.pending == [] && s.inbound != [] && s.inbound[0].Data? && s.inbound[0].bytes != [] {
      var got := Scan(s.held, s.inbound[0].bytes);
      var rest := s.inbound[1..];
      assert ([s.inbound[0]] + Burst(rest))[1..] == Burst(rest);
      assert Arrivals(s.held, Burst(s.inbound)) == [got.frames] + Arrivals(got.held, Burst(rest));
      assert Concat([got.frames] + Arrivals(got.held, Burst(rest))) == got.frames + Concat(Arrivals(got.held, Burst(rest))) by {
        assert ([got.frames] + Arrivals(got.held, Burst(rest)))[1..] == Arrivals(got.held, Burst(rest));
      }
      if got.frames == [] {
        PullHandsOverExactly(policy, s.(inbound := rest, held := got.held));
        assert s.inbound[Spent(s.inbound)..] == rest[Spent(rest)..];
      }
    }
  }

  /** How many answers a call that hands over nothing has consumed, */
  function Spent(inbound: seq<Read>): (n: nat)
    ensures n <= |inbound| && (inbound != [] ==> n > 0)
  {
    if |Burst(inbound)| < |inbound| then |Burst(inbound)| + 1 else |inbound|
  }

  /** and what it reports. */
  function Answer(inbound: seq<Read>): What {
    if inbound == [] then Quiet
    else match inbound[0]
      case WouldBlock => Quiet
      case Failed => Broken
      case Data(bytes) => if bytes == [] then Ended else Answer(inbound[1..])
  }

  lemma {:induction false} AnswerAfterBurst(inbound: seq<Read>)
    ensures var k := |Burst(inbound)|;
            && k <= |inbound|
            && (Answer(inbound) == Ended <==> k < |inbound| && inbound[k] == Data([]))
            && (Answer(inbound) == Broken <==> k < |inbound| && inbound[k] == Failed)
            && (Answer(inbound) == Quiet <==> k == |inbound| || inbound[k] == WouldBlock)
    decreases |inbound|
  {
    if inbound != [] && inbound[0].Data? && inbound[0].bytes != [] {
      var rest := inbound[1..];
      AnswerAfterBurst(rest);
      if |Burst(rest)| < |rest| { assert inbound[|Burst(rest)| + 1] == rest[|Burst(rest)|]; }
    }
  }

  /**
   * What the caller gets from a call that hands over nothing: `Disconnected` if and only if the first answer
   * without bytes is the end of the stream, an I/O error if and only if it is a failure, and otherwise no
   * data; from one that hands over a wire, its message or the error of the layer that refuses it.
   */
  lemma ReportedExactly<M>(policy: Policy, decode: RawFrame -> Result<M, WireError>, s: State)
    ensures var what := Pull(policy, s).what;
            var (r, k) := (Report(decode, what), |Burst(s.inbound)|);
            if what.Handed? then
              && (forall e :: Parse(what.wire) == Err(e) ==> r == WireErr(e))
              && (forall f, e :: Parse(what.wire) == Ok(f) && decode(f) == Err(e) ==> r == WireErr(e))
              && (forall f, m :: Parse(what.wire) == Ok(f) && decode(f) == Ok(m) ==> r == Message(m))
            else
              && (r == Disconnected <==> k < |s.inbound| && s.inbound[k] == Data([]))
              && (r == IoErr <==> k < |s.inbound| && s.inbound[k] == Failed)
              && (r == NoData <==> k >= |s.inbound| || s.inbound[k] == WouldBlock)
  {
    PullHandsOverExactly(policy, s);
    AnswerAfterBurst(s.inbound);
    hide Pull, Burst, Answer, Parse;
  }

  /** n calls in a row: the wires handed over, and the state they leave. */
  function PullMany(policy: Policy, s: State, n: nat): (r: (seq<seq<byte>>, State))
    decreases n
  {
    if n == 0 then ([], s)
    else
      var p := Pull(policy, s);
      var rest := PullMany(policy, p.next, n - 1);
      (Wires(p.what) + rest.0, rest.1)
  }

  /** Over any number of calls, what was handed over plus what is owed is what was owed. */
  lemma {:induction false} DeliveryAccounting(policy: Policy, s: State, n: nat)
    ensures var (handed, after) := PullMany(policy, s, n); handed + Owed(policy, after) == Owed(policy, s)
    decreases n
  {
    hide Pull, Owed;
    if n == 0 {
      Associative(Owed(policy, s), [], []);
    } else {
      var p := Pull(policy, s);
      PullPaysInOrder(policy, s);
      DeliveryAccounting(policy, p.next, n - 1);
      var rest := PullMany(policy, p.next, n - 1);
      Associative(Wires(p.what), rest.0, Owed(policy, rest.1));
    }
  }

  /** Nothing is left to read and nothing to hand over. */
  predicate Drained(s: State) { s.inbound == [] && s.pending == [] }

  lemma AtEndOfInput(policy: Policy, s: State)
    requires s.inbound == []
    ensures Owed(policy, s) == Reverse(s.pending) && |Owed(policy, s)| == |s.pending|
    ensures s.pending == [] ==> Pull(policy, s) == Pulled(Quiet, s)
  {
    assert OrderAll(policy, Arrivals(s.held, s.inbound)) == [];
  }

  /** As many calls as there are answers to read and frames to hand over leave nothing behind. */
  lemma {:induction false} EnoughCallsDrain(policy: Policy, s: State, n: nat)
    requires n >= |s.inbound| + |Owed(policy, s)|
    ensures Drained(PullMany(policy, s, n).1)
    decreases n
  {
    hide Pull, Owed, Spent, Concat, Arrivals;
    if s.inbound == [] { AtEndOfInput(policy, s); }
    if n > 0 {
      var p := Pull(policy, s);
      PullPaysInOrder(policy, s);
      PullHandsOverExactly(policy, s);
      assert |Wires(p.what)| + |Owed(policy, p.next)| == |Owed(policy, s)|;
      EnoughCallsDrain(policy, p.next, n - 1);
    }
  }

  /** Exactly once: enough calls hand over exactly what was owed, in order. */
  lemma EnoughCallsDeliver(policy: Policy, s: State, n: nat)
    requires n >= |s.inbound| + |Owed(policy, s)|
    ensures PullMany(policy, s, n).0 == Owed(policy, s)
    ensures Owed(policy, PullMany(policy, s, n).1) == []
  {
    var after := PullMany(policy, s, n).1;
    DeliveryAccounting(policy, s, n);
    EnoughCallsDrain(policy, s, n);
    AtEndOfInput(policy, after);
    assert PullMany(policy, s, n).0 + [] == PullMany(policy, s, n).0;
  }

  // ---- when the order is arrival order ---------------------------------------

  ghost predicate AllEqual<T>(s: seq<T>) { forall i, j | 0 <= i < j < |s| :: s[i] == s[j] }

  lemma {:induction false} NeighboursEqual<T>(s: seq<T>, j: nat)
    requires j < |s| && forall i | 0 < i < |s| :: s[i] == s[i - 1]
    ensures s[j] == s[0]
  {
    if j > 0 { NeighboursEqual(s, j - 1); }
  }

  lemma RotationFixesExactly(b: seq<seq<byte>>)
    ensures Order(PopThenReverse, b) == b <==> AllEqual(b)
    ensures |b| <= 1 ==> AllEqual(b)
  {
    var r := Order(PopThenReverse, b);
    if r == b {
      forall i | 0 < i < |b| ensures b[i] == b[i - 1] { assert r[i] == b[i - 1]; }
      forall i, j | 0 <= i < j < |b| ensures b[i] == b[j] {
        NeighboursEqual(b, i);
        NeighboursEqual(b, j);
      }
    }
    if AllEqual(b) {
      forall i | 0 <= i < |b| ensures r[i] == b[i] { assert 0 < i ==> r[i] == b[i - 1]; }
    }
  }

  /** The code hands frames over in arrival order exactly when no read completes two different ones. */
  lemma {:induction false} ArrivalOrderExactly(bs: seq<seq<seq<byte>>>)
    ensures Concat(OrderAll(PopThenReverse, bs)) == Concat(bs) <==> forall b | b in bs :: AllEqual(b)
  {
    if bs != [] {
      var b, rest := bs[0], bs[1..];
      assert bs == [b] + rest;
      OrderAllCons(PopThenReverse, b, rest);
      ArrivalOrderExactly(rest);
      RotationFixesExactly(b);
      var ob, orest := Order(PopThenReverse, b), Concat(OrderAll(PopThenReverse, rest));
      if ob + orest == b + Concat(rest) {
        assert (ob + orest)[..|b|] == ob && (b + Concat(rest))[..|b|] == b;
        assert (ob + orest)[|b|..] == orest && (b + Concat(rest))[|b|..] == Concat(rest);
      }
      assert forall x | x in bs :: x == b || x in rest;
      assert forall x | x in rest :: x in bs;
      assert b in bs;
    }
  }

  /** Reversing before popping hands frames over in arrival order on every stream. */
  lemma ReverseFirstIsFifo(bs: seq<seq<seq<byte>>>)
    ensures Concat(OrderAll(ReverseThenPop, bs)) == Concat(bs)
  {
    assert OrderAll(ReverseThenPop, bs) == bs;
  }

  lemma OrderPermutes(policy: Policy, b: seq<seq<byte>>)
    ensures multiset(Order(policy, b)) == multiset(b)
  {
    if b != [] { assert b == b[..|b| - 1] + [b[|b| - 1]]; }
  }

  /** Either way the same frames arrive: only the order differs. */
  lemma {:induction false} NothingLostOrRepeated(policy: Policy, bs: seq<seq<seq<byte>>>)
    ensures multiset(Concat(OrderAll(policy, bs))) == multiset(Concat(bs))
  {
    if bs != [] {
      hide Order, OrderAll;
      var b, rest := bs[0], bs[1..];
      assert bs == [b] + rest;
      OrderAllCons(policy, b, rest);
      OrderPermutes(policy, b);
      NothingLostOrRepeated(policy, rest);
      assert multiset(Order(policy, b) + Concat(OrderAll(policy, rest)))
          == multiset(Order(policy, b)) + multiset(Concat(OrderAll(policy, rest)));
    }
  }

  function Chunks(inbound: seq<Read>): seq<seq<byte>> {
    if inbound == [] then []
    else (if inbound[0].Data? then [inbound[0].bytes] else []) + Chunks(inbound[1..])
  }

  lemma {:induction false} ArrivalsAreTheStream(held: seq<byte>, inbound: seq<Read>)
    ensures Concat(Arrivals(held, inbound)) == ScanChunks(held, Chunks(inbound)).frames
    decreases |inbound|
  {
    if inbound != [] {
      match inbound[0] {
        case Data(bytes) =>
          ArrivalsAreTheStream(Scan(held, bytes).held, inbound[1..]);
          assert ([bytes] + Chunks(inbound[1..]))[1..] == Chunks(inbound[1..]);
        case _ =>
          ArrivalsAreTheStream(held, inbound[1..]);
          assert [] + Chunks(inbound[1..]) == Chunks(inbound[1..]);
      }
    }
  }

  /** A fresh connection owes the arrivals of its stream, each read's in the order the policy gives it. */
  lemma FreshOwes(policy: Policy, inbound: seq<Read>)
    ensures Owed(policy, State(inbound, [], [])) == Concat(OrderAll(policy, Arrivals([], inbound)))
    ensures |Owed(policy, State(inbound, [], []))| == |Concat(Arrivals([], inbound))|
  {
    var owed := Concat(OrderAll(policy, Arrivals([], inbound)));
    assert Reverse<seq<byte>>([]) + owed == owed;
    NothingLostOrRepeated(policy, Arrivals([], inbound));
    assert |multiset(owed)| == |owed| && |multiset(Concat(Arrivals([], inbound)))| == |Concat(Arrivals([], inbound))|;
  }

  /** Enough calls for a stream: one for every answer of the stream and every frame in it. */
  predicate Enough(inbound: seq<Read>, n: nat) { n >= |inbound| + |Concat(Arrivals([], inbound))| }

  /** Over any stream `recv` hands over exactly the frames that arrived, as often as they arrived. */
  lemma RecvLosesNothing(policy: Policy, inbound: seq<Read>, n: nat)
    requires Enough(inbound, n)
    ensures multiset(PullMany(policy, State(inbound, [], []), n).0) == multiset(ScanChunks([], Chunks(inbound)).frames)
  {
    FreshOwes(policy, inbound);
    EnoughCallsDeliver(policy, State(inbound, [], []), n);
    NothingLostOrRepeated(policy, Arrivals([], inbound));
    ArrivalsAreTheStream([], inbound);
  }

  /** `recv` hands over a stream's frames in arrival order exactly when no read completes two different ones; */
  lemma RecvInOrderExactly(inbound: seq<Read>, n: nat)
    requires Enough(inbound, n)
    ensures PullMany(PopThenReverse, State(inbound, [], []), n).0 == Concat(Arrivals([], inbound))
            <==> forall b | b in Arrivals([], inbound) :: AllEqual(b)
  {
    FreshOwes(PopThenReverse, inbound);
    EnoughCallsDeliver(PopThenReverse, State(inbound, [], []), n);
    ArrivalOrderExactly(Arrivals([], inbound));
  }

  /** reversing before popping would hand every stream over in arrival order. */
  lemma ReverseFirstInOrder(inbound: seq<Read>, n: nat)
    requires Enough(inbound, n)
    ensures PullMany(ReverseThenPop, State(inbound, [], []), n).0 == Concat(Arrivals([], inbound))
  {
    FreshOwes(ReverseThenPop, inbound);
    EnoughCallsDeliver(ReverseThenPop, State(inbound, [], []), n);
    ReverseFirstIsFifo(Arrivals([], inbound));
  }

  lemma TwoInOneRead(data: seq<byte>, a: seq<byte>, b: seq<byte>)
    requires data != [] && Scan([], data) == Scanned([a, b], [])
    ensures PullMany(PopThenReverse, State([Data(data)], [], []), 2).0 == [b, a]
  {
    hide Scan;
    var s := State([Data(data)], [], []);
    assert [a, b][..1] == [a];
    assert Reverse([a]) == [a];
    var p := Pull(PopThenReverse, s);
    assert p == Pulled(Handed(b), State([], [], [a]));
    var q := Pull(PopThenReverse, p.next);
    assert q.what == Handed(a);
    hide Pull;
    assert PullMany(PopThenReverse, q.next, 0).0 == [];
    assert PullMany(PopThenReverse, p.next, 1).0 == [a];
  }

  /** Any two different frames that one read completes are handed over the wrong way round. */
  lemma TwoFramesSwapped(f: RawFrame, g: RawFrame)
    requires f != g
    ensures var s := State([Data(Encode(f) + Encode(g))], [], []);
            PullMany(PopThenReverse, s, 2).0 == [Encode(g), Encode(f)] && Encode(f) != Encode(g)
  {
    hide Scan, Encode, Parse, PullMany;
    RoundTrip(f);
    RoundTrip(g);
    ScanEncoded([], f);
    ScanEncoded([], g);
    ScanAppend([], Encode(f), Encode(g));
    assert [] + Encode(f) == Encode(f) && [] + Encode(g) == Encode(g);
    assert Encode(f) + Encode(g) != [] by { EncodedShape(f); }
    assert [Encode(f)] + [Encode(g)] == [Encode(f), Encode(g)];
    TwoInOneRead(Encode(f) + Encode(g), Encode(f), Encode(g));
  }

  /**
   * From bytes to frames: when the stream carries the encodings of fs and no read completes two
   * different frames, any number of `recv` calls on a fresh connection hands over a prefix of those
   * encodings, in order, and enough of them hand over all.
   */
  lemma RecvEndToEnd(fs: seq<RawFrame>, inbound: seq<Read>, n: nat)
    requires Concat(Chunks(inbound)) == Concat(EncodeAll(fs))
    requires forall b | b in Arrivals([], inbound) :: AllEqual(b)
    ensures PullMany(PopThenReverse, State(inbound, [], []), n).0 <= EncodeAll(fs)
    ensures n >= |inbound| + |fs| ==> PullMany(PopThenReverse, State(inbound, [], []), n).0 == EncodeAll(fs)
    ensures ParseAll(EncodeAll(fs)) == AllOk(fs)
  {
    var s := State(inbound, [], []);
    FreshOwes(PopThenReverse, inbound);
    DeliveryAccounting(PopThenReverse, s, n);
    ArrivalOrderExactly(Arrivals([], inbound));
    ArrivalsAreTheStream([], inbound);
    EndToEnd(fs, Chunks(inbound));
    if n >= |inbound| + |fs| { EnoughCallsDeliver(PopThenReverse, s, n); }
  }
}
