/**
 * The specification shared by the linear sequencers of src/seq.rs: a script of exchanges, each
 * sending at most one command and waiting for one reply, some replies being optional. A run is
 * its list of replies, so what was sent is a prefix of the script.
 */
module Script {
  import opened Prelude
  import opened Wire
  import opened Protocol

  const TIMEOUT: nat := 2000  // milliseconds

  datatype Kind =
    | KDspStatus | KAvrStatus | KPiStatus | KConfigAck | KModeSet | KParamValue | KRadarCal
    | KConfigResp | KAvrConfigResp | KDspQueryResp | KDevInfoResp | KProdInfoResp | KNetConfigResp
    | KCalParamResp | KCalDataResp | KTimeSync | KCamConfig

  predicate Is(kind: Kind, m: Message) {
    match kind
    case KDspStatus => m.DspStatus?
    case KAvrStatus => m.AvrStatus?
    case KPiStatus => m.PiStatus?
    case KConfigAck => m.ConfigAck?
    case KModeSet => m.ModeSet?
    case KParamValue => m.ParamValue?
    case KRadarCal => m.RadarCal?
    case KConfigResp => m.ConfigResp?
    case KAvrConfigResp => m.AvrConfigResp?
    case KDspQueryResp => m.DspQueryResp?
    case KDevInfoResp => m.DevInfoResp?
    case KProdInfoResp => m.ProdInfoResp?
    case KNetConfigResp => m.NetConfigResp?
    case KCalParamResp => m.CalParamResp?
    case KCalDataResp => m.CalDataResp?
    case KTimeSync => m.TimeSync?
    case KCamConfig => m.CamConfig?
  }

  /** A reply of one kind from one bus, or one of the two asynchronous disarm signals. */
  datatype Expect = From(bus: BusAddr, kind: Kind) | ModeReset | StateIdle

  predicate Fits(x: Expect, m: Message) {
    match x
    case From(_, kind) => Is(kind, m)
    case ModeReset => m.ModeAck? || (m.Text? && Contains(m.text, "ARMED CANCELLED"))
    case StateIdle => m.ModeAck? || (m.Text? && Contains(m.text, "System State"))
  }

  predicate Accepts(x: Expect, env: Envelope) {
    Fits(x, env.message) && (x.From? ==> env.src == x.bus)
  }

  datatype Exchange = Exchange(send: Option<Action>, awaits: Expect, optional: bool)

  /** Send a command to a bus and wait for a reply of one kind from it. */
  function Ask(cmd: Command, bus: BusAddr, kind: Kind): Exchange {
    Exchange(Some(Send(cmd, bus)), From(bus, kind), false)
  }

  function AskOptional(cmd: Command, bus: BusAddr, kind: Kind): Exchange {
    Exchange(Some(Send(cmd, bus)), From(bus, kind), true)
  }

  /** A script under way: `None` is an optional reply given up on. */
  datatype Progress = Progress(script: seq<Exchange>, replies: seq<Option<Message>>, deadline: Option<nat>)

  predicate Complete(p: Progress) { |p.replies| == |p.script| }

  /** A deadline runs exactly while an optional reply is awaited. */
  predicate Good(p: Progress) {
    && |p.replies| <= |p.script|
    && (forall i | 0 <= i < |p.replies| :: ReplyFits(p.script[i], p.replies[i]))
    && (p.deadline.Some? <==> |p.replies| < |p.script| && p.script[|p.replies|].optional)
  }

  predicate ReplyFits(x: Exchange, r: Option<Message>) {
    if r.None? then x.optional else Fits(x.awaits, r.value)
  }

  /** Something to do first, and its first exchange is not optional. */
  predicate Startable(script: seq<Exchange>) { |script| > 0 && !script[0].optional }

  function Begin(script: seq<Exchange>): Progress { Progress(script, [], None) }

  datatype Step = Step(next: Progress, sends: seq<Action>)

  function ToSend(x: Exchange): seq<Action> { if x.send.Some? then [x.send.value] else [] }

  /** What is sent first, before any reply. */
  function Opening(script: seq<Exchange>): seq<Action> { if script == [] then [] else ToSend(script[0]) }

  function Advance(p: Progress, reply: Option<Message>, now: nat): Step {
    var n := |p.replies| + 1;
    if n < |p.script| then
      Step(Progress(p.script, p.replies + [reply], if p.script[n].optional then Some(now + TIMEOUT) else None),
           ToSend(p.script[n]))
    else Step(Progress(p.script, p.replies + [reply], None), [])
  }

  function Feed(p: Progress, env: Envelope, now: nat): Step {
    if |p.replies| < |p.script| && Accepts(p.script[|p.replies|].awaits, env)
    then Advance(p, Some(env.message), now)
    else Step(p, [])
  }

  /** Giving up on an optional reply whose time has passed. */
  function Expire(p: Progress, now: nat): Step {
    if p.deadline.Some? && now >= p.deadline.value then Advance(p, None, now) else Step(p, [])
  }

  /** `Feed` for a message known to come from the right bus. */
  function Answer(p: Progress, m: Message, now: nat): Step {
    if |p.replies| < |p.script| && Fits(p.script[|p.replies|].awaits, m) then Advance(p, Some(m), now) else Step(p, [])
  }

  predicate OnBus(x: Exchange, bus: BusAddr) { x.awaits.From? && x.awaits.bus == bus }

  /** With one bus, a message is answered, or comes from elsewhere and is ignored. */
  lemma FeedOnBus(p: Progress, bus: BusAddr, env: Envelope, now: nat)
    requires forall i | 0 <= i < |p.script| :: OnBus(p.script[i], bus)
    ensures Feed(p, env, now) == if env.src == bus then Answer(p, env.message, now) else Step(p, [])
  {}

  function BodyIn(r: Option<Message>): Payload { if r.Some? then BodyOf(r.value) else [] }

  function StatusIn(r: Option<Message>): DspStatusData {
    if r.Some? && r.value.DspStatus? then r.value.dsp else DspStatusData(0, [])
  }

  lemma FeedKeepsGood(p: Progress, env: Envelope, now: nat)
    requires Good(p)
    ensures Good(Feed(p, env, now).next) && Feed(p, env, now).next.script == p.script
  {}

  lemma ExpireKeepsGood(p: Progress, now: nat)
    requires Good(p)
    ensures Good(Expire(p, now).next) && Expire(p, now).next.script == p.script
  {}

  /** The reply a sequencer is waiting for has come, */
  predicate Awaited(p: Progress, env: Envelope) {
    |p.replies| < |p.script| && Accepts(p.script[|p.replies|].awaits, env)
  }

  /** or has been waited for long enough. */
  predicate GivenUp(p: Progress, now: nat) { p.deadline.Some? && now >= p.deadline.value }

  /** One exchange further: this reply is kept behind the earlier ones, and at most one command goes out. */
  predicate OneFurther(p: Progress, reply: Option<Message>, s: Step) {
    s.next.script == p.script && s.next.replies == p.replies + [reply] && |s.sends| <= 1
  }

  /**
   * A message moves a sequencer one exchange further exactly when it is the awaited reply, a time exactly
   * when an optional reply is overdue, each releasing at most one command; otherwise nothing changes.
   */
  lemma OneCommandPerReply(p: Progress, env: Envelope, now: nat)
    requires Good(p)
    ensures Awaited(p, env) <==> OneFurther(p, Some(env.message), Feed(p, env, now))
    ensures !Awaited(p, env) <==> Feed(p, env, now) == Step(p, [])
    ensures GivenUp(p, now) <==> OneFurther(p, None, Expire(p, now))
    ensures !GivenUp(p, now) <==> Expire(p, now) == Step(p, [])
  {
    assert |p.replies + [Some(env.message)]| == |p.replies| + 1;
    assert |p.replies + [None]| == |p.replies| + 1;
  }

  // ---- traces ----------------------------------------------------------------

  function Commands(script: seq<Exchange>): seq<Action> {
    if script == [] then [] else ToSend(script[0]) + Commands(script[1..])
  }

  /** The commands sent so far: those of the answered exchanges and of the one awaited. */
  function Sent(p: Progress): seq<Action>
    requires |p.replies| <= |p.script|
  {
    Commands(if Complete(p) then p.script else p.script[..|p.replies| + 1])
  }

  lemma {:induction false} CommandsAppend(a: seq<Exchange>, b: seq<Exchange>)
    ensures Commands(a + b) == Commands(a) + Commands(b)
  {
    if a == [] {
      assert a + b == b;
    } else {
      assert (a + b)[1..] == a[1..] + b;
      CommandsAppend(a[1..], b);
    }
  }

  lemma {:induction false} CommandsOneEach(script: seq<Exchange>, sends: seq<Action>)
    requires |script| == |sends| && forall i | 0 <= i < |script| :: script[i].send == Some(sends[i])
    ensures Commands(script) == sends
  {
    if script != [] { CommandsOneEach(script[1..], sends[1..]); }
  }

  lemma AdvanceTrace(p: Progress, reply: Option<Message>, now: nat)
    requires |p.replies| < |p.script|
    ensures Sent(Advance(p, reply, now).next) == Sent(p) + Advance(p, reply, now).sends
  {
    var n := |p.replies| + 1;
    if n < |p.script| {
      assert p.script[..n + 1] == p.script[..n] + [p.script[n]];
      CommandsAppend(p.script[..n], [p.script[n]]);
      assert Commands([p.script[n]]) == ToSend(p.script[n]);
      if n + 1 == |p.script| { assert p.script[..n + 1] == p.script; }
    } else {
      assert p.script[..n] == p.script;
    }
  }

  function OnTick(p: Progress, tick: Tick): Step {
    var e := Expire(p, tick.now);
    if tick.env.None? then e
    else var f := Feed(e.next, tick.env.value, tick.now); Step(f.next, e.sends + f.sends)
  }

  function Run(p: Progress, ticks: seq<Tick>): Step
    decreases |ticks|
  {
    if ticks == [] then Step(p, [])
    else
      var first := OnTick(p, ticks[0]);
      var rest := Run(first.next, ticks[1..]);
      Step(rest.next, first.sends + rest.sends)
  }

  lemma OnTickTrace(p: Progress, tick: Tick)
    requires Good(p)
    ensures var s := OnTick(p, tick); Good(s.next) && s.next.script == p.script
    ensures var s := OnTick(p, tick); Sent(s.next) == Sent(p) + s.sends && |p.replies| <= |s.next.replies|
  {
    hide Sent, Good;
    assert |p.replies| <= |p.script| && (p.deadline.Some? ==> |p.replies| < |p.script|) by { GoodBounds(p); }
    ExpireKeepsGood(p, tick.now);
    var e := Expire(p, tick.now);
    GoodBounds(e.next);
    if p.deadline.Some? && tick.now >= p.deadline.value { AdvanceTrace(p, None, tick.now); }
    if tick.env.Some? {
      FeedKeepsGood(e.next, tick.env.value, tick.now);
      GoodBounds(Feed(e.next, tick.env.value, tick.now).next);
      if |e.next.replies| < |e.next.script| { AdvanceTrace(e.next, Some(tick.env.value.message), tick.now); }
    }
  }

  lemma GoodBounds(p: Progress)
    requires Good(p)
    ensures |p.replies| <= |p.script| && (p.deadline.Some? ==> |p.replies| < |p.script|)
  {}

  lemma {:induction false} RunKeepsTrace(p: Progress, ticks: seq<Tick>)
    requires Good(p)
    ensures Good(Run(p, ticks).next) && Run(p, ticks).next.script == p.script
    ensures Sent(p) + Run(p, ticks).sends == Sent(Run(p, ticks).next)
    decreases |ticks|
  {
    GoodBounds(p);
    hide Sent, Good, OnTick, Commands;
    Associative(Sent(p), [], []);
    if ticks != [] {
      var first := OnTick(p, ticks[0]);
      OnTickTrace(p, ticks[0]);
      RunKeepsTrace(first.next, ticks[1..]);
      Associative(Sent(p), first.sends, Run(first.next, ticks[1..]).sends);
    }
  }

  /**
   * On every stream of messages and every schedule of timeouts, what has been sent is a prefix of the
   * script's commands, and all of them once the script is complete.
   */
  lemma RunTrace(script: seq<Exchange>, ticks: seq<Tick>)
    requires Startable(script)
    ensures var r := Run(Begin(script), ticks); ToSend(script[0]) + r.sends <= Commands(script)
    ensures var r := Run(Begin(script), ticks);
            Complete(r.next) ==> r.next.script == script && ToSend(script[0]) + r.sends == Commands(script)
  {
    var p := Begin(script);
    RunKeepsTrace(p, ticks);
    var r := Run(p, ticks);
    GoodBounds(r.next);
    SentIsPrefix(r.next);
    assert script[..1] == [script[0]];
    assert Commands([script[0]]) == ToSend(script[0]);
    if |script| == 1 { assert script == [script[0]]; }
  }

  lemma SentIsPrefix(p: Progress)
    requires |p.replies| <= |p.script|
    ensures Sent(p) <= Commands(p.script)
  {
    if !Complete(p) {
      var n := |p.replies| + 1;
      assert p.script == p.script[..n] + p.script[n..];
      CommandsAppend(p.script[..n], p.script[n..]);
    }
  }

  // ---- when a script completes -----------------------------------------------

  predicate Answers(x: Exchange, env: Envelope) { Accepts(x.awaits, env) }

  /** The replies the exchanges await occur among the messages, in that order, with anything in between. */
  predicate OccurIn(exchanges: seq<Exchange>, ms: seq<Envelope>) { Occur(Answers, exchanges, ms) }

  predicate NoneOptional(script: seq<Exchange>) { forall i | 0 <= i < |script| :: !script[i].optional }

  /** Without optional replies, a round is its message. */
  lemma PlainTick(p: Progress, tick: Tick)
    requires Good(p) && NoneOptional(p.script)
    ensures tick.env.None? ==> OnTick(p, tick) == Step(p, [])
    ensures tick.env.Some? ==> OnTick(p, tick) == Feed(p, tick.env.value, tick.now)
  {
    hide ReplyFits, Accepts;
    if |p.replies| < |p.script| { assert !p.script[|p.replies|].optional; }
  }

  /** One message: the first reply awaited is taken when it comes. */
  lemma TakesAwaited(p: Progress, env: Envelope, now: nat, rest: seq<Envelope>)
    requires |p.replies| <= |p.script|
    ensures var q := Feed(p, env, now).next;
            && |q.replies| <= |q.script|
            && (OccurIn(p.script[|p.replies|..], [env] + rest) <==> OccurIn(q.script[|q.replies|..], rest))
  {
    hide Accepts, Occur;
    var left := p.script[|p.replies|..];
    assert ([env] + rest)[1..] == rest;
    if left == [] {
      NothingOccurs([env] + rest);
      NothingOccurs(rest);
    } else {
      TakeFirst(Answers, left, [env] + rest);
    }
  }

  lemma NothingOccurs(ms: seq<Envelope>)
    ensures OccurIn([], ms)
  {}

  lemma {:induction false} CompletesFrom(p: Progress, ticks: seq<Tick>)
    requires Good(p) && NoneOptional(p.script)
    ensures Complete(Run(p, ticks).next) <==> OccurIn(p.script[|p.replies|..], MessagesIn(ticks))
    decreases |ticks|
  {
    GoodBounds(p);
    if ticks == [] {
      hide Good, NoneOptional;
    } else {
      hide Good, Accepts, NoneOptional, OnTick, Feed, OccurIn;
      var rest := MessagesIn(ticks[1..]);
      PlainTick(p, ticks[0]);
      Associative(rest, [], []);
      if ticks[0].env.None? {
        CompletesFrom(p, ticks[1..]);
      } else {
        var env := ticks[0].env.value;
        FeedKeepsGood(p, env, ticks[0].now);
        CompletesFrom(Feed(p, env, ticks[0].now).next, ticks[1..]);
        TakesAwaited(p, env, ticks[0].now, rest);
      }
    }
  }

  /**
   * A script without optional replies completes exactly when the replies it awaits occur in the stream, in
   * order, whatever comes between them and whenever they come.
   */
  lemma CompletesExactly(script: seq<Exchange>, ticks: seq<Tick>)
    requires Startable(script) && NoneOptional(script)
    ensures Complete(Run(Begin(script), ticks).next) <==> OccurIn(script, MessagesIn(ticks))
  {
    CompletesFrom(Begin(script), ticks);
    assert script[0..] == script;
  }

  // ---- when a script with optional replies completes -------------------------

  /** No round runs before `now`, nor before the one in front of it. */
  predicate InTimeOrder(now: nat, ticks: seq<Tick>)
    decreases |ticks|
  {
    ticks == [] || (now <= ticks[0].now && InTimeOrder(ticks[0].now, ticks[1..]))
  }

  /**
   * The exchanges, the first one asked at `since`, can all be got past in these rounds: each by its reply, or,
   * if it is optional, by a round TIMEOUT or more after it was asked, which may then bring the next one's reply.
   */
  predicate PassedIn(exchanges: seq<Exchange>, since: nat, ticks: seq<Tick>)
    decreases |ticks|, |exchanges|
  {
    || exchanges == []
    || (ticks != [] && PassedIn(exchanges, since, ticks[1..]))
    || (ticks != [] && ticks[0].env.Some? && Accepts(exchanges[0].awaits, ticks[0].env.value)
        && PassedIn(exchanges[1..], ticks[0].now, ticks[1..]))
    || (ticks != [] && exchanges[0].optional && ticks[0].now >= since + TIMEOUT
        && PassedIn(exchanges[1..], ticks[0].now, ticks))
  }

  /** Asking earlier does no harm, */
  lemma {:induction false} SoonerPasses(exchanges: seq<Exchange>, earlier: nat, since: nat, ticks: seq<Tick>)
    requires earlier <= since && PassedIn(exchanges, since, ticks)
    ensures PassedIn(exchanges, earlier, ticks)
    decreases |ticks|
  {
    hide Accepts;
    if exchanges != [] && PassedIn(exchanges, since, ticks[1..]) { SoonerPasses(exchanges, earlier, since, ticks[1..]); }
  }

  /** nor does having one exchange less to get past. */
  lemma {:induction false} FewerPass(exchanges: seq<Exchange>, since: nat, now: nat, ticks: seq<Tick>)
    requires exchanges != [] && PassedIn(exchanges, since, ticks) && InTimeOrder(now, ticks)
    ensures PassedIn(exchanges[1..], now, ticks)
    decreases |ticks|
  {
    hide Accepts;
    var t, rest := ticks[0].now, ticks[1..];
    if PassedIn(exchanges, since, rest) {
      FewerPass(exchanges, since, t, rest);
      SoonerPasses(exchanges[1..], now, t, rest);
    } else if PassedIn(exchanges[1..], t, rest) {
      SoonerPasses(exchanges[1..], now, t, rest);
    } else {
      SoonerPasses(exchanges[1..], now, t, ticks);
    }
  }

  /** Getting past an overdue exchange at once is never a mistake; */
  lemma ExpireFirst(exchanges: seq<Exchange>, since: nat, ticks: seq<Tick>)
    requires exchanges != [] && ticks != [] && InTimeOrder(ticks[0].now, ticks)
    requires exchanges[0].optional && ticks[0].now >= since + TIMEOUT
    ensures PassedIn(exchanges, since, ticks) <==> PassedIn(exchanges[1..], ticks[0].now, ticks)
  {
    if PassedIn(exchanges, since, ticks) { FewerPass(exchanges, since, ticks[0].now, ticks); }
  }

  /** nor is taking the first acceptable reply to one that is not overdue. */
  lemma AnswerFirst(exchanges: seq<Exchange>, since: nat, ticks: seq<Tick>)
    requires exchanges != [] && ticks != [] && InTimeOrder(ticks[0].now, ticks)
    requires exchanges[0].optional ==> ticks[0].now < since + TIMEOUT
    ensures PassedIn(exchanges, since, ticks)
            <==> if ticks[0].env.Some? && Accepts(exchanges[0].awaits, ticks[0].env.value)
                 then PassedIn(exchanges[1..], ticks[0].now, ticks[1..]) else PassedIn(exchanges, since, ticks[1..])
  {
    hide Accepts;
    if PassedIn(exchanges, since, ticks[1..]) { FewerPass(exchanges, since, ticks[0].now, ticks[1..]); }
  }

  /** When the awaited exchange was asked, as far as it matters: only its deadline does. */
  predicate AskedAt(p: Progress, since: nat) { p.deadline.Some? ==> p.deadline.value == since + TIMEOUT }

  /** What a round's message does to the exchanges left. */
  lemma FeedPasses(p: Progress, since: nat, ticks: seq<Tick>) returns (since': nat)
    requires Good(p) && AskedAt(p, since) && ticks != [] && InTimeOrder(ticks[0].now, ticks)
    requires p.deadline.Some? ==> ticks[0].now < p.deadline.value
    ensures var q := if ticks[0].env.None? then p else Feed(p, ticks[0].env.value, ticks[0].now).next;
            && Good(q) && AskedAt(q, since')
            && (PassedIn(p.script[|p.replies|..], since, ticks) <==> PassedIn(q.script[|q.replies|..], since', ticks[1..]))
  {
    hide Accepts, ReplyFits;
    var left := p.script[|p.replies|..];
    since' := since;
    if left != [] {
      AnswerFirst(left, since, ticks);
      hide PassedIn;
      if ticks[0].env.Some? {
        FeedKeepsGood(p, ticks[0].env.value, ticks[0].now);
        if Accepts(left[0].awaits, ticks[0].env.value) { since' := ticks[0].now; }
      }
    }
  }

  /** One round: an overdue exchange is got past, then the message is looked at. */
  lemma TickPasses(p: Progress, since: nat, ticks: seq<Tick>) returns (since': nat)
    requires Good(p) && AskedAt(p, since) && ticks != [] && InTimeOrder(ticks[0].now, ticks)
    ensures var q := OnTick(p, ticks[0]).next;
            && Good(q) && AskedAt(q, since')
            && (PassedIn(p.script[|p.replies|..], since, ticks) <==> PassedIn(q.script[|q.replies|..], since', ticks[1..]))
  {
    hide PassedIn, ReplyFits, Feed;
    var now := ticks[0].now;
    ExpireKeepsGood(p, now);
    if GivenUp(p, now) {
      ExpireFirst(p.script[|p.replies|..], since, ticks);
      since' := FeedPasses(Expire(p, now).next, now, ticks);
    } else {
      since' := FeedPasses(p, since, ticks);
    }
  }

  lemma {:induction false} CompletesFromIn(p: Progress, since: nat, now: nat, ticks: seq<Tick>)
    requires Good(p) && AskedAt(p, since) && InTimeOrder(now, ticks)
    ensures Complete(Run(p, ticks).next) <==> PassedIn(p.script[|p.replies|..], since, ticks)
    decreases |ticks|
  {
    GoodBounds(p);
    if ticks != [] {
      hide PassedIn, Good, OnTick, AskedAt;
      var since' := TickPasses(p, since, ticks);
      CompletesFromIn(OnTick(p, ticks[0]).next, since', ticks[0].now, ticks[1..]);
    }
  }

  /**
   * Any script, over rounds in time order, completes exactly when the rounds get past all its exchanges in
   * order, each by its reply or, if optional, by waiting for it long enough.
   */
  lemma CompletesInTimeExactly(script: seq<Exchange>, start: nat, ticks: seq<Tick>)
    requires Startable(script) && InTimeOrder(start, ticks)
    ensures Complete(Run(Begin(script), ticks).next) <==> PassedIn(script, start, ticks)
  {
    CompletesFromIn(Begin(script), start, start, ticks);
    assert script[0..] == script;
  }

  // ---- where the replies come from -------------------------------------------

  /** Round `i` brought message m, which this exchange awaits. */
  predicate AnsweredAt(x: Exchange, ticks: seq<Tick>, i: nat, m: Message) {
    i < |ticks| && ticks[i].env.Some? && ticks[i].env.value.message == m && Accepts(x.awaits, ticks[i].env.value)
  }

  /**
   * Each reply comes from a round of its own, in order; one given up on was got past in its round, which may
   * have brought the next reply. An optional reply is given up on exactly if its round comes TIMEOUT or more
   * after the one before it.
   */
  predicate FromRounds(p: Progress, ticks: seq<Tick>, at: seq<nat>)
    requires |p.replies| <= |p.script|
  {
    && |at| == |p.replies|
    && (forall k | 0 <= k < |at| :: at[k] < |ticks|)
    && (forall k | 0 <= k < |at| :: p.replies[k].Some? ==> AnsweredAt(p.script[k], ticks, at[k], p.replies[k].value))
    && (forall j, k | 0 <= j < k < |at| :: at[j] <= at[k] && (at[j] == at[k] ==> p.replies[j].None?))
    && (forall k | 0 <= k < |at| && p.script[k].optional ::
          k > 0 && (p.replies[k].None? <==> ticks[at[k]].now >= ticks[at[k - 1]].now + TIMEOUT))
    && (p.deadline.Some? ==> |at| > 0 && p.deadline.value == ticks[at[|at| - 1]].now + TIMEOUT)
  }

  /** Rounds in order, each of which brought a message from this bus. */
  predicate MessagesFrom(bus: BusAddr, ticks: seq<Tick>, at: seq<nat>) {
    && (forall j, k | 0 <= j < k < |at| :: at[j] < at[k])
    && (forall k | 0 <= k < |at| :: Brought(bus, ticks, at[k]))
  }

  predicate Brought(bus: BusAddr, ticks: seq<Tick>, i: nat) {
    i < |ticks| && ticks[i].env.Some? && ticks[i].env.value.src == bus
  }

  /** The messages of such rounds. */
  function MessagesAt(bus: BusAddr, ticks: seq<Tick>, at: seq<nat>): (ms: seq<Message>)
    requires MessagesFrom(bus, ticks, at)
    ensures |ms| == |at| && forall k | 0 <= k < |at| :: Brought(bus, ticks, at[k]) && ms[k] == ticks[at[k]].env.value.message
  {
    seq(|at|, k requires 0 <= k < |at| => assert Brought(bus, ticks, at[k]); ticks[at[k]].env.value.message)
  }

  /** The commands sent before round n, the first one included. */
  function SentBefore(script: seq<Exchange>, ticks: seq<Tick>, n: nat): seq<Action>
    requires n <= |ticks|
  {
    Opening(script) + Run(Begin(script), ticks[..n]).sends
  }

  lemma {:induction false} RunSnoc(p: Progress, ticks: seq<Tick>, t: Tick)
    ensures var (r, s) := (Run(p, ticks), OnTick(Run(p, ticks).next, t));
            Run(p, ticks + [t]) == Step(s.next, r.sends + s.sends)
    decreases |ticks|
  {
    hide OnTick;
    if ticks == [] {
      assert [] + [t] == [t] && [t][1..] == [];
      Associative(OnTick(p, t).sends, [], []);
    } else {
      var first := OnTick(p, ticks[0]);
      assert (ticks + [t])[1..] == ticks[1..] + [t];
      RunSnoc(first.next, ticks[1..], t);
      Associative(first.sends, Run(first.next, ticks[1..]).sends, OnTick(Run(p, ticks).next, t).sends);
    }
  }

  lemma WiderRounds(p: Progress, before: seq<Tick>, t: Tick, at: seq<nat>)
    requires |p.replies| <= |p.script| && FromRounds(p, before, at)
    ensures FromRounds(p, before + [t], at)
  {
    hide Accepts;
    forall k | 0 <= k < |at| ensures at[k] < |before| && (before + [t])[at[k]] == before[at[k]] {}
  }

  /** A reply more, from round n, which has brought none so far or given one up. */
  lemma OneReplyMore(p: Progress, q: Progress, ticks: seq<Tick>, at: seq<nat>, n: nat)
    requires |p.replies| < |p.script| && FromRounds(p, ticks, at) && n < |ticks|
    requires q.script == p.script && |q.replies| == |p.replies| + 1 && q.replies[..|p.replies|] == p.replies
    requires var r := q.replies[|p.replies|]; r.Some? ==> AnsweredAt(p.script[|p.replies|], ticks, n, r.value)
    requires forall k | 0 <= k < |at| :: at[k] <= n && (at[k] == n ==> p.replies[k].None?)
    requires p.script[|p.replies|].optional ==>
               && p.deadline.Some?
               && (q.replies[|p.replies|].None? <==> ticks[n].now >= p.deadline.value)
    requires q.deadline.Some? ==> q.deadline.value == ticks[n].now + TIMEOUT
    ensures FromRounds(q, ticks, at + [n])
  {
    hide AnsweredAt;
    forall k | 0 <= k < |p.replies| ensures q.replies[k] == p.replies[k] { assert q.replies[..|p.replies|][k] == q.replies[k]; }
  }

  /** Round n gives the awaited reply up, */
  lemma ExpireRound(p: Progress, ticks: seq<Tick>, at: seq<nat>, n: nat)
    requires Good(p) && FromRounds(p, ticks, at) && n < |ticks| && GivenUp(p, ticks[n].now)
    requires forall k | 0 <= k < |at| :: at[k] < n
    ensures var q := Expire(p, ticks[n].now).next;
            && FromRounds(q, ticks, at + [n]) && |q.replies| == |p.replies| + 1 && q.replies[|p.replies|].None?
            && (q.deadline.Some? ==> q.deadline.value > ticks[n].now)
  {
    var q := Expire(p, ticks[n].now).next;
    assert p.script[|p.replies|].optional;
    hide Good, FromRounds;
    assert q.replies[..|p.replies|] == p.replies;
    OneReplyMore(p, q, ticks, at, n);
  }

  /** or brings it. */
  lemma FeedRound(p: Progress, ticks: seq<Tick>, at: seq<nat>, n: nat)
    requires Good(p) && FromRounds(p, ticks, at) && n < |ticks| && !GivenUp(p, ticks[n].now)
    requires ticks[n].env.Some? && Awaited(p, ticks[n].env.value)
    requires forall k | 0 <= k < |at| :: at[k] <= n && (at[k] == n ==> p.replies[k].None?)
    ensures FromRounds(Feed(p, ticks[n].env.value, ticks[n].now).next, ticks, at + [n])
  {
    var q := Feed(p, ticks[n].env.value, ticks[n].now).next;
    assert p.script[|p.replies|].optional ==> p.deadline.Some?;
    hide Good, FromRounds;
    assert q.replies[..|p.replies|] == p.replies;
    hide Accepts;
    OneReplyMore(p, q, ticks, at, n);
  }

  /** One more round leaves the places of the earlier replies, and adds its own for those it brings. */
  lemma OneMoreRound(p: Progress, before: seq<Tick>, t: Tick, at: seq<nat>) returns (at': seq<nat>)
    requires Good(p) && FromRounds(p, before, at)
    ensures Good(OnTick(p, t).next) && OnTick(p, t).next.script == p.script && at <= at'
    ensures FromRounds(OnTick(p, t).next, before + [t], at')
    ensures forall k | |at| <= k < |at'| :: at'[k] == |before|
  {
    GoodBounds(p);
    AsManyRounds(p, before, at);
    WiderRounds(p, before, t, at);
    assert forall k | 0 <= k < |at| :: at[k] < |before|;
    var e := Expire(p, t.now).next;
    var n := |before|;
    var ticks := before + [t];
    assert ticks[n] == t;
    ExpireKeepsGood(p, t.now);
    hide Good, FromRounds, Accepts, Awaited;
    at' := at;
    if GivenUp(p, t.now) {
      ExpireRound(p, ticks, at, n);
      at' := at + [n];
      assert e.replies[..|p.replies|] == p.replies;
    }
    if t.env.Some? {
      FeedKeepsGood(e, t.env.value, t.now);
      if Awaited(e, t.env.value) {
        FeedRound(e, ticks, at', n);
        at' := at' + [n];
      } else {
        IgnoredFeed(e, t.env.value, t.now);
      }
    }
  }

  lemma IgnoredFeed(p: Progress, env: Envelope, now: nat)
    requires !Awaited(p, env)
    ensures Feed(p, env, now) == Step(p, [])
  {}

  lemma AsManyRounds(p: Progress, ticks: seq<Tick>, at: seq<nat>)
    requires |p.replies| <= |p.script| && FromRounds(p, ticks, at)
    ensures |at| == |p.replies|
  {}

  lemma {:induction false} RepliesFromRounds(script: seq<Exchange>, ticks: seq<Tick>) returns (at: seq<nat>)
    requires Startable(script)
    ensures var p := Run(Begin(script), ticks).next;
            && Good(p) && p.script == script && FromRounds(p, ticks, at)
            && (NoneOptional(script) ==> forall k | 0 <= k < |at| :: p.replies[k].Some? && AskedLast(script, ticks, at[k], k))
    decreases |ticks|
  {
    RunKeepsTrace(Begin(script), ticks);
    if ticks == [] {
      at := [];
    } else {
      var n := |ticks| - 1;
      var (before, t) := (ticks[..n], ticks[n]);
      assert ticks == before + [t];
      at := RepliesFromRounds(script, before);
      var p := Run(Begin(script), before).next;
      RunSnoc(Begin(script), before, t);
      var earlier := at;
      at := OneMoreRound(p, before, t, at);
      if NoneOptional(script) { AllAsked(script, ticks, earlier, at); }
    }
  }

  /** When exchange k was answered, its command was the last one sent. */
  predicate AskedLast(script: seq<Exchange>, ticks: seq<Tick>, n: nat, k: nat)
    requires k < |script|
  {
    n <= |ticks| && SentBefore(script, ticks, n) == Commands(script[..k + 1])
  }

  lemma OneReplyAtMost(p: Progress, tick: Tick)
    requires Good(p) && NoneOptional(p.script)
    ensures |OnTick(p, tick).next.replies| <= |p.replies| + 1
  {
    PlainTick(p, tick);
    hide Good, NoneOptional, Accepts, OnTick;
  }

  lemma AllAsked(script: seq<Exchange>, ticks: seq<Tick>, earlier: seq<nat>, at: seq<nat>)
    requires Startable(script) && NoneOptional(script) && ticks != []
    requires var before := ticks[..|ticks| - 1];
             var (p, q) := (Run(Begin(script), before).next, Run(Begin(script), ticks).next);
             && Good(p) && p.script == script && FromRounds(p, before, earlier) && |at| <= |script|
             && (forall k | 0 <= k < |earlier| :: AskedLast(script, before, earlier[k], k))
             && Good(q) && q.script == script && |at| == |q.replies| && earlier <= at
             && (forall k | |earlier| <= k < |at| :: at[k] == |before|)
             && q == OnTick(p, ticks[|ticks| - 1]).next
    ensures forall k | 0 <= k < |at| :: Run(Begin(script), ticks).next.replies[k].Some? && AskedLast(script, ticks, at[k], k)
  {
    var before := ticks[..|ticks| - 1];
    var p := Run(Begin(script), before).next;
    var q := Run(Begin(script), ticks).next;
    GoodBounds(p);
    AsManyRounds(p, before, earlier);
    OneReplyAtMost(p, ticks[|ticks| - 1]);
    AllReplied(q);
    hide Run, Good, Commands, FromRounds, OnTick, NoneOptional, Startable;
    assert ticks[..|before|] == before && before[..|before|] == before;
    forall k | 0 <= k < |at| ensures AskedLast(script, ticks, at[k], k) {
      if k < |earlier| {
        assert AskedLast(script, before, earlier[k], k) && at[k] == earlier[k];
        assert ticks[..at[k]] == before[..at[k]];
      } else {
        SentSoFar(script, before);
        assert k == |p.replies| && at[k] == |before|;
      }
    }
  }

  /** Without optional exchanges no reply is missing. */
  lemma AllReplied(p: Progress)
    requires Good(p) && NoneOptional(p.script)
    ensures forall k | 0 <= k < |p.replies| :: p.replies[k].Some?
  {
    forall k | 0 <= k < |p.replies| ensures p.replies[k].Some? { assert ReplyFits(p.script[k], p.replies[k]); }
  }

  lemma SentSoFar(script: seq<Exchange>, ticks: seq<Tick>)
    requires Startable(script)
    ensures var p := Run(Begin(script), ticks).next;
            |p.replies| < |script| ==> SentBefore(script, ticks, |ticks|) == Commands(script[..|p.replies| + 1])
  {
    RunKeepsTrace(Begin(script), ticks);
    assert ticks[..|ticks|] == ticks;
    assert script[..1] == [script[0]];
    assert [script[0]][1..] == [] && Commands([script[0]]) == ToSend(script[0]) + [];
    if |script| == 1 { assert script == [script[0]]; }
  }

  /** With one command an exchange, what had been sent when exchange k was answered ends in its command. */
  lemma AskedInTrace(script: seq<Exchange>, trace: seq<Action>, k: nat)
    requires |script| == |trace| && k < |trace|
    requires forall i | 0 <= i < |script| :: script[i].send == Some(trace[i])
    ensures Commands(script[..k + 1]) == trace[..k + 1]
  {
    CommandsOneEach(script[..k + 1], trace[..k + 1]);
  }

  /** The replies of one bus are messages of that bus, in order. */
  lemma RepliesOfBus(p: Progress, bus: BusAddr, ticks: seq<Tick>, at: seq<nat>)
    requires Good(p) && FromRounds(p, ticks, at) && NoneOptional(p.script)
    requires forall k | 0 <= k < |p.script| :: OnBus(p.script[k], bus)
    ensures MessagesFrom(bus, ticks, at) && RepliesAre(p, MessagesAt(bus, ticks, at))
  {
    AllReplied(p);
    hide Fits;
    forall k | 0 <= k < |at|
      ensures Brought(bus, ticks, at[k]) && p.replies[k] == Some(ticks[at[k]].env.value.message)
      ensures Fits(p.script[k].awaits, ticks[at[k]].env.value.message)
    {
      assert AnsweredAt(p.script[k], ticks, at[k], p.replies[k].value);
    }
  }

  predicate RepliesAre(p: Progress, ms: seq<Message>) {
    && |ms| == |p.replies| <= |p.script|
    && forall k | 0 <= k < |ms| :: p.replies[k] == Some(ms[k]) && Fits(p.script[k].awaits, ms[k])
  }

  /** The whole story of a phase without optional replies that has completed. */
  lemma CompletedPhase(script: seq<Exchange>, trace: seq<Action>, bus: BusAddr, ticks: seq<Tick>) returns (at: seq<nat>)
    requires Startable(script) && NoneOptional(script) && |script| == |trace|
    requires forall i | 0 <= i < |script| :: OnBus(script[i], bus) && script[i].send == Some(trace[i])
    requires Complete(Run(Begin(script), ticks).next)
    ensures var p := Run(Begin(script), ticks).next;
            && p.script == script && |p.replies| == |at| == |script|
            && MessagesFrom(bus, ticks, at) && RepliesAre(p, MessagesAt(bus, ticks, at))
    ensures forall k | 0 <= k < |at| :: at[k] <= |ticks| && SentBefore(script, ticks, at[k]) == trace[..k + 1]
  {
    at := RepliesFromRounds(script, ticks);
    var p := Run(Begin(script), ticks).next;
    AsManyRounds(p, ticks, at);
    RepliesOfBus(p, bus, ticks, at);
    hide Run, FromRounds, Good, RepliesAre;
    forall k | 0 <= k < |at| ensures at[k] <= |ticks| && SentBefore(script, ticks, at[k]) == trace[..k + 1] {
      assert AskedLast(script, ticks, at[k], k);
      AskedInTrace(script, trace, k);
    }
  }
}
