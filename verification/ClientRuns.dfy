/** Properties of every run of the client: conservation and order of operations, disarming, keepalives. */
module ClientRuns {
  import opened Prelude
  import opened Wire
  import opened Protocol
  import opened Script
  import opened ClientSpec
  import S = ShotSeq
  import R = ArmSeq

  // ---- runs ------------------------------------------------------------------------

  /** What the caller can do: enqueue one of the four user operations, change a setting, or poll. */
  datatype Input = Enqueue(op: Op) | SetKeepaliveInterval(ms: nat) | SetOperationTimeout(ms: nat) | PollAt(tick: Tick)

  type UserInput = i: Input | i.Enqueue? ==> !i.op.Keepalive? witness SetKeepaliveInterval(0)

  /** A client with the history of its run. */
  datatype History = History(c: Client, enqueued: seq<Op>, log: seq<Entry>, sent: seq<Action>, events: seq<Event>)

  function EventsOf(r: Outcome): seq<Event> { if r.Emit? then [r.event] else [] }

  function Do(h: History, i: UserInput): (h': History)
    requires WF(h.c)
    ensures WF(h'.c)
  {
    match i
    case Enqueue(op) => h.(c := h.c.(queue := h.c.queue + [op]), enqueued := h.enqueued + [op])
    case SetKeepaliveInterval(ms) => h.(c := h.c.(kaInterval := ms))
    case SetOperationTimeout(ms) => h.(c := h.c.(opTimeout := ms))
    case PollAt(tick) =>
      PollKeepsWF(h.c, tick);
      var o := Poll(h.c, tick);
      History(o.c, h.enqueued, h.log + o.log, h.sent + o.sent, h.events + EventsOf(o.result))
  }

  function Exec(start: nat, inputs: seq<UserInput>): (h: History)
    ensures WF(h.c)
  {
    if inputs == [] then History(New(start), [], [], [], [])
    else Do(Exec(start, inputs[..|inputs| - 1]), inputs[|inputs| - 1])
  }

  // ---- polling round after round -------------------------------------------------------

  datatype Polled = Polled(c: Client, sent: seq<Action>, events: seq<Event>, timedOut: bool)

  function PollAll(c: Client, ticks: seq<Tick>): (p: Polled)
    requires WF(c)
    ensures WF(p.c)
    decreases |ticks|
  {
    if ticks == [] then Polled(c, [], [], false)
    else
      PollKeepsWF(c, ticks[0]);
      var o := Poll(c, ticks[0]);
      var rest := PollAll(o.c, ticks[1..]);
      Polled(rest.c, o.sent + rest.sent, EventsOf(o.result) + rest.events, o.result.TimedOut? || rest.timedOut)
  }

  // ---- conservation ----------------------------------------------------------------

  function UserOps(ops: seq<Op>): seq<Op> {
    if ops == [] then [] else (if ops[0].Keepalive? then [] else [ops[0]]) + UserOps(ops[1..])
  }

  function StartedOps(log: seq<Entry>): seq<Op> {
    if log == [] then []
    else (if log[0].Started? && !log[0].op.Keepalive? then [log[0].op] else []) + StartedOps(log[1..])
  }

  lemma {:induction false} UserOpsAppend(a: seq<Op>, b: seq<Op>)
    ensures UserOps(a + b) == UserOps(a) + UserOps(b)
  {
    if a == [] {
      assert a + b == b;
    } else {
      assert (a + b)[1..] == a[1..] + b;
      UserOpsAppend(a[1..], b);
    }
  }

  lemma {:induction false} StartedOpsAppend(a: seq<Entry>, b: seq<Entry>)
    ensures StartedOps(a + b) == StartedOps(a) + StartedOps(b)
  {
    if a == [] {
      assert a + b == b;
    } else {
      assert (a + b)[1..] == a[1..] + b;
      StartedOpsAppend(a[1..], b);
    }
  }

  lemma UserOpsOne(op: Op)
    ensures UserOps([op]) == if op.Keepalive? then [] else [op]
  {
    assert [op][1..] == [];
  }

  lemma StartedOpsOne(e: Entry)
    ensures StartedOps([e]) == if e.Started? && !e.op.Keepalive? then [e.op] else []
  {
    assert [e][1..] == [];
  }

  /** What was queued is what was started, then what is still queued. */
  predicate Accounts(before: Client, o: Out) {
    UserOps(before.queue) == StartedOps(o.log) + UserOps(o.c.queue)
  }

  lemma StartAccounts(c: Client, op: Op, now: nat)
    ensures Accounts(c.(queue := [op] + c.queue), Start(c, op, now))
  {
    hide Opening, Begin;
    UserOpsAppend([op], c.queue);
    UserOpsOne(op);
    StartedOpsOne(Started(op));
    StartedOpsOne(DisarmStarted);
    Associative(UserOps(c.queue), [], []);
    Associative(UserOps([op] + c.queue), [], []);
  }

  lemma StartNextAccounts(c: Client, now: nat)
    ensures Accounts(c, StartNext(c, now))
  {
    hide Start, UserOps;
    Associative(UserOps(c.queue), [], []);
    if c.active.None? && c.queue != [] {
      StartAccounts(c.(queue := c.queue[1..]), c.queue[0], now);
      assert [c.queue[0]] + c.queue[1..] == c.queue;
      var back := c.(queue := c.queue[1..]).(queue := [c.queue[0]] + c.queue[1..]);
      assert back.queue == c.queue;
    }
  }

  lemma BeforeRecvAccounts(c: Client, now: nat)
    ensures Accounts(c, BeforeRecv(c, now))
  {
    hide StartNext, UserOps, StartedOps, Expire, S.ShotExpire, KeepaliveDue;
    var l := Lapse(c, now);
    StartNextAccounts(l, now);
    var o := StartNext(l, now);
    UserOpsAppend(o.c.queue, [Keepalive]);
    UserOpsOne(Keepalive);
    Associative(UserOps(o.c.queue), [], []);
  }

  lemma QueueUntouched(c: Client, o: Out)
    requires o.c.queue == c.queue && StartedOps(o.log) == []
    ensures Accounts(c, o)
  {
    Associative(UserOps(c.queue), [], []);
  }

  lemma FinishAccounts(c: Client, now: nat)
    requires c.active.Some? && !InHandshake(c.active.value)
    ensures Accounts(c, FinishOp(c, now))
  {
    hide StartNext, UserOps;
    StartedOpsOne(DisarmDone);
    Associative(UserOps(c.queue), [], []);
    if c.active.value.KeepingAlive? {
      StartNextAccounts(c.(active := None, deadline := None, kaQueued := false, lastKa := now), now);
    }
  }

  lemma ConsumeAccounts(c: Client, env: Envelope, now: nat)
    requires c.active.Some? && WF(c)
    ensures Accounts(c, Consume(c, env, now))
  {
    hide FeedOp, Sound, Finished, FinishOp, UserOps, InHandshake, Opening, Begin;
    var f := FeedOp(c.active.value, env, now);
    FeedKeepsSound(c.active.value, env, now);
    var c' := c.(active := Some(f.a));
    if f.signal.Done? {
      FinishAccounts(c', now);
    } else {
      QueueUntouched(c, Consume(c, env, now));
    }
  }

  lemma DeliverAccounts(c: Client, env: Envelope, now: nat)
    requires WF(c)
    ensures Accounts(c, Deliver(c, env, now))
  {
    hide Consume, UserOps, SaysTrigger, SaysProcessed, CacheStatus, Sound, Finished;
    var c' := c.(status := CacheStatus(c.status, env));
    if Takes(c, env) { ConsumeAccounts(c', env, now); } else { QueueUntouched(c, Detect(c', env, now)); }
  }

  lemma PollAccounts(c: Client, tick: Tick)
    requires WF(c)
    ensures Accounts(c, Poll(c, tick))
  {
    hide BeforeRecv, Deliver, UserOps, WF;
    BeforeRecvKeepsWF(c, tick.now);
    var b := BeforeRecv(c, tick.now);
    BeforeRecvAccounts(c, tick.now);
    Associative(UserOps(c.queue), [], []);
    if tick.env.Some? {
      DeliverAccounts(b.c, tick.env.value, tick.now);
      var d := Deliver(b.c, tick.env.value, tick.now);
      StartedOpsAppend(b.log, d.log);
      Associative(StartedOps(b.log), StartedOps(d.log), UserOps(d.c.queue));
    }
  }

  /**
   * Nothing is lost, repeated, reordered or changed: at every point of every run the user operations
   * enqueued are those started followed by those still queued.
   */
  lemma {:induction false} OperationsConserved(start: nat, inputs: seq<UserInput>)
    ensures Exec(start, inputs).enqueued == StartedOps(Exec(start, inputs).log) + UserOps(Exec(start, inputs).c.queue)
  {
    hide Poll, StartedOps, UserOps;
    if inputs == [] {
      assert StartedOps([]) == [] && UserOps([]) == [] by { EmptyOps(); }
    } else {
      var h := Exec(start, inputs[..|inputs| - 1]);
      OperationsConserved(start, inputs[..|inputs| - 1]);
      match inputs[|inputs| - 1]
      case Enqueue(op) =>
        UserOpsAppend(h.c.queue, [op]);
        UserOpsOne(op);
        Associative(StartedOps(h.log), UserOps(h.c.queue), [op]);
      case PollAt(tick) =>
        var o := Poll(h.c, tick);
        PollAccounts(h.c, tick);
        StartedOpsAppend(h.log, o.log);
        Associative(StartedOps(h.log), StartedOps(o.log), UserOps(o.c.queue));
      case _ =>
    }
  }

  lemma EmptyOps()
    ensures StartedOps([]) == [] && UserOps([]) == []
  {}

  // ---- completion order ------------------------------------------------------------

  datatype Milestone = MHandshake | MConfigured | MArmed

  function MilestoneOf(op: Op): seq<Milestone> {
    match op
    case Handshake => [MHandshake]
    case ConfigureAvr(_) => [MConfigured]
    case ConfigureCam(_) => [MConfigured]
    case Arm => [MArmed]
    case Keepalive => []
  }

  /** The completion events owed for started operations, in order. */
  function Promised(log: seq<Entry>): seq<Milestone> {
    if log == [] then [] else (if log[0].Started? then MilestoneOf(log[0].op) else []) + Promised(log[1..])
  }

  function EventMilestone(e: Event): seq<Milestone> {
    if e.HandshakeDone? then [MHandshake] else if e.Configured? then [MConfigured] else if e.Armed? then [MArmed] else []
  }

  function Reached(events: seq<Event>): seq<Milestone> {
    if events == [] then [] else EventMilestone(events[0]) + Reached(events[1..])
  }

  /** The milestone the operation in progress will reach. */
  function Pending(c: Client): seq<Milestone> {
    if c.active.None? then []
    else match c.active.value
      case HsDsp(_) => [MHandshake]
      case HsAvr(_, _) => [MHandshake]
      case HsPi(_, _, _) => [MHandshake]
      case ConfiguringAvr(_, _) => [MConfigured]
      case ConfiguringCam(_, _) => [MConfigured]
      case Arming(_) => [MArmed]
      case _ => []
  }

  predicate Fulfils(before: Client, o: Out) {
    Pending(before) + Promised(o.log) == Reached(EventsOf(o.result)) + Pending(o.c)
  }

  lemma {:induction false} PromisedAppend(a: seq<Entry>, b: seq<Entry>)
    ensures Promised(a + b) == Promised(a) + Promised(b)
  {
    if a == [] {
      assert a + b == b;
    } else {
      assert (a + b)[1..] == a[1..] + b;
      PromisedAppend(a[1..], b);
    }
  }

  lemma {:induction false} ReachedAppend(a: seq<Event>, b: seq<Event>)
    ensures Reached(a + b) == Reached(a) + Reached(b)
  {
    if a == [] {
      assert a + b == b;
    } else {
      assert (a + b)[1..] == a[1..] + b;
      ReachedAppend(a[1..], b);
    }
  }

  lemma PromisedOne(e: Entry)
    ensures Promised([e]) == if e.Started? then MilestoneOf(e.op) else []
    ensures Promised([]) == []
  {
    assert [e][1..] == [];
  }

  lemma ReachedOne(r: Outcome)
    ensures Reached(EventsOf(r)) == if r.Emit? then EventMilestone(r.event) else []
  {
    if r.Emit? { assert [r.event][1..] == []; }
  }

  lemma StartNextFulfils(c: Client, now: nat)
    ensures var o := StartNext(c, now); Pending(c) + Promised(o.log) == Pending(o.c)
  {
    hide Opening, Begin, Promised;
    PromisedOne(DisarmStarted);
    Associative(Pending(c), [], []);
    if c.queue != [] { PromisedOne(Started(c.queue[0])); }
  }

  lemma BeforeRecvFulfils(c: Client, now: nat)
    requires Overdue(c, now) ==> KeepaliveActive(c)
    ensures Pending(c) + Promised(BeforeRecv(c, now).log) == Pending(BeforeRecv(c, now).c)
    ensures BeforeRecv(c, now).result == Quiet
  {
    hide StartNext, Promised, Expire, S.ShotExpire, KeepaliveDue, AutoKeepalive, Overdue;
    StartNextFulfils(Lapse(c, now), now);
    AutoKeepsActive(Expiries(StartNext(Lapse(c, now), now).c, now).c, now);
  }

  lemma AutoKeepsActive(c: Client, now: nat)
    ensures AutoKeepalive(c, now).active == c.active
  {}

  lemma FinishFulfils(c: Client, now: nat)
    requires c.active.Some? && !InHandshake(c.active.value)
    ensures Fulfils(c, FinishOp(c, now))
  {
    hide StartNext, Promised;
    PromisedOne(DisarmDone);
    ReachedOne(FinishOp(c, now).result);
    if c.active.value.KeepingAlive? {
      var idle := c.(active := None, deadline := None, kaQueued := false, lastKa := now);
      StartNextFulfils(idle, now);
    }
  }

  lemma FeedKeepsKind(a: Active, env: Envelope, now: nat)
    ensures var b := FeedOp(a, env, now).a;
            && (b.HsDsp? <==> a.HsDsp?) && (b.HsAvr? <==> a.HsAvr?) && (b.HsPi? <==> a.HsPi?)
            && (b.Disarming? <==> a.Disarming?) && (b.ConfiguringAvr? <==> a.ConfiguringAvr?)
            && (b.ConfiguringCam? <==> a.ConfiguringCam?) && (b.Arming? <==> a.Arming?)
            && (b.InShot? <==> a.InShot?) && (b.KeepingAlive? <==> a.KeepingAlive?)
  {
    hide Feed, S.ShotFeed, SignalOf;
  }

  lemma ConsumeFulfils(c: Client, env: Envelope, now: nat)
    requires c.active.Some? && WF(c)
    ensures Fulfils(c, Consume(c, env, now))
  {
    hide FeedOp, Sound, Finished, FinishOp, Opening, Begin, Promised, Reached;
    var f := FeedOp(c.active.value, env, now);
    FeedKeepsSound(c.active.value, env, now);
    FeedKeepsKind(c.active.value, env, now);
    var c' := c.(active := Some(f.a));
    PromisedOne(DisarmDone);
    ReachedOne(Consume(c, env, now).result);
    Associative(Pending(c), [], []);
    if f.signal.Done? { FinishFulfils(c', now); }
  }

  lemma DeliverFulfils(c: Client, env: Envelope, now: nat)
    requires WF(c)
    ensures Fulfils(c, Deliver(c, env, now))
  {
    hide Consume, SaysTrigger, SaysProcessed, CacheStatus, Sound, Finished, Promised, Reached;
    var c' := c.(status := CacheStatus(c.status, env));
    PromisedOne(DisarmDone);
    ReachedOne(Deliver(c, env, now).result);
    if Takes(c, env) { ConsumeFulfils(c', env, now); }
  }

  lemma PollFulfils(c: Client, tick: Tick)
    requires WF(c)
    ensures Fulfils(c, Poll(c, tick))
  {
    hide BeforeRecv, Deliver, WF, Promised, Reached, Overdue, KeepaliveActive, Pending;
    var o := Poll(c, tick);
    PromisedOne(DisarmDone);
    ReachedOne(o.result);
    Associative(Pending(c), [], []);
    if !(Overdue(c, tick.now) && !KeepaliveActive(c)) {
      BeforeRecvKeepsWF(c, tick.now);
      var b := BeforeRecv(c, tick.now);
      BeforeRecvFulfils(c, tick.now);
      Associative(Pending(b.c), [], []);
      if tick.env.Some? {
        var d := Deliver(b.c, tick.env.value, tick.now);
        DeliverFulfils(b.c, tick.env.value, tick.now);
        PromisedAppend(b.log, d.log);
        Associative(Pending(c), Promised(b.log), Promised(d.log));
      }
    }
  }

  /**
   * No operation in progress is ever overwritten: the Handshake, Configured and Armed events of a run are
   * those of the started operations, in order, except the one still in progress.
   */
  lemma {:induction false} CompletionsInOrder(start: nat, inputs: seq<UserInput>)
    ensures Reached(Exec(start, inputs).events) + Pending(Exec(start, inputs).c) == Promised(Exec(start, inputs).log)
  {
    hide Poll, Promised, Reached;
    if inputs == [] {
      PromisedOne(DisarmDone);
      ReachedOne(Quiet);
    } else {
      var h := Exec(start, inputs[..|inputs| - 1]);
      CompletionsInOrder(start, inputs[..|inputs| - 1]);
      match inputs[|inputs| - 1]
      case PollAt(tick) =>
        var o := Poll(h.c, tick);
        PollFulfils(h.c, tick);
        PromisedAppend(h.log, o.log);
        ReachedAppend(h.events, EventsOf(o.result));
        Associative(Reached(h.events), Pending(h.c), Promised(o.log));
        Associative(Reached(h.events), Reached(EventsOf(o.result)), Pending(o.c));
      case _ =>
    }
  }

  function Milestones(ops: seq<Op>): seq<Milestone> {
    if ops == [] then [] else MilestoneOf(ops[0]) + Milestones(ops[1..])
  }

  lemma {:induction false} MilestonesAppend(a: seq<Op>, b: seq<Op>)
    ensures Milestones(a + b) == Milestones(a) + Milestones(b)
  {
    if a == [] {
      assert a + b == b;
    } else {
      assert (a + b)[1..] == a[1..] + b;
      MilestonesAppend(a[1..], b);
    }
  }

  lemma {:induction false} PromisedOfStarted(log: seq<Entry>)
    ensures Promised(log) == Milestones(StartedOps(log))
  {
    if log != [] {
      PromisedOfStarted(log[1..]);
      var rest := StartedOps(log[1..]);
      Associative(rest, [], []);
      Associative(Milestones(rest), [], []);
      if log[0].Started? && !log[0].op.Keepalive? { assert ([log[0].op] + rest)[1..] == rest; }
    }
  }

  /** Completions reported, then the one in progress, then those still queued, are those enqueued, in order. */
  lemma EventsFollowEnqueueOrder(start: nat, inputs: seq<UserInput>)
    ensures var h := Exec(start, inputs);
            Reached(h.events) + Pending(h.c) + Milestones(UserOps(h.c.queue)) == Milestones(h.enqueued)
  {
    hide Exec, Reached, Pending, Promised, StartedOps, UserOps, Milestones;
    var h := Exec(start, inputs);
    OperationsConserved(start, inputs);
    CompletionsInOrder(start, inputs);
    PromisedOfStarted(h.log);
    MilestonesAppend(StartedOps(h.log), UserOps(h.c.queue));
  }

  // ---- disarm before configure -----------------------------------------------------

  /** Where the record stands: a disarm must complete, and then a configuration must start. */
  datatype Stand = Normal | MidDisarm | MustConfigure | Broken

  function Next(s: Stand, e: Entry): Stand {
    match s
    case Normal => if e.Started? then Normal else if e.DisarmStarted? then MidDisarm else Broken
    case MidDisarm => if e.DisarmDone? then MustConfigure else Broken
    case MustConfigure => if e.Started? && e.op.ConfigureAvr? then Normal else Broken
    case Broken => Broken
  }

  function StandAfter(s: Stand, log: seq<Entry>): Stand
    decreases |log|
  {
    if log == [] then s else StandAfter(Next(s, log[0]), log[1..])
  }

  lemma {:induction false} StandAppend(s: Stand, a: seq<Entry>, b: seq<Entry>)
    ensures StandAfter(s, a + b) == StandAfter(StandAfter(s, a), b)
    decreases |a|
  {
    if a == [] {
      assert a + b == b;
    } else {
      assert (a + b)[1..] == a[1..] + b;
      StandAppend(Next(s, a[0]), a[1..], b);
    }
  }

  predicate HeadIsConfigure(c: Client) { c.queue != [] && c.queue[0].ConfigureAvr? }

  /** How the state and the record agree. */
  predicate Agrees(s: Stand, c: Client) {
    && s != Broken
    && (s == MidDisarm <==> c.active.Some? && c.active.value.Disarming?)
    && (s == MidDisarm ==> HeadIsConfigure(c))
    && (s == MustConfigure ==> c.active.None? && !c.armed && HeadIsConfigure(c))
    && (c.active.Some? && c.active.value.ConfiguringAvr? ==> !c.armed)
  }

  lemma StandOne(s: Stand, e: Entry)
    ensures StandAfter(s, [e]) == Next(s, e) && StandAfter(s, []) == s
  {
    assert [e][1..] == [];
  }

  lemma StartNextAgrees(s: Stand, c: Client, now: nat)
    requires Agrees(s, c)
    ensures Agrees(StandAfter(s, StartNext(c, now).log), StartNext(c, now).c)
  {
    hide Opening, Begin, StandAfter;
    StandOne(s, DisarmStarted);
    if c.queue != [] { StandOne(s, Started(c.queue[0])); }
  }

  lemma BeforeRecvAgrees(s: Stand, c: Client, now: nat)
    requires Agrees(s, c) && (Overdue(c, now) ==> KeepaliveActive(c))
    ensures Agrees(StandAfter(s, BeforeRecv(c, now).log), BeforeRecv(c, now).c)
  {
    hide StartNext, StandAfter, Expire, S.ShotExpire, KeepaliveDue;
    StartNextAgrees(s, Lapse(c, now), now);
  }

  lemma FinishAgrees(s: Stand, c: Client, now: nat)
    requires c.active.Some? && !InHandshake(c.active.value) && Agrees(s, c)
    ensures Agrees(StandAfter(s, FinishOp(c, now).log), FinishOp(c, now).c)
  {
    hide StartNext, StandAfter;
    StandOne(s, DisarmDone);
    if c.active.value.KeepingAlive? {
      StartNextAgrees(s, c.(active := None, deadline := None, kaQueued := false, lastKa := now), now);
    }
  }

  lemma ConsumeAgrees(s: Stand, c: Client, env: Envelope, now: nat)
    requires c.active.Some? && WF(c) && Agrees(s, c)
    ensures Agrees(StandAfter(s, Consume(c, env, now).log), Consume(c, env, now).c)
  {
    hide FeedOp, Sound, Finished, FinishOp, Opening, Begin, StandAfter;
    var f := FeedOp(c.active.value, env, now);
    FeedKeepsSound(c.active.value, env, now);
    FeedKeepsKind(c.active.value, env, now);
    StandOne(s, DisarmDone);
    if f.signal.Done? { FinishAgrees(s, c.(active := Some(f.a)), now); }
  }

  lemma DeliverAgrees(s: Stand, c: Client, env: Envelope, now: nat)
    requires WF(c) && Agrees(s, c)
    requires s == MustConfigure ==> Takes(c, env)
    ensures Agrees(StandAfter(s, Deliver(c, env, now).log), Deliver(c, env, now).c)
  {
    hide Consume, SaysTrigger, SaysProcessed, CacheStatus, Sound, Finished, StandAfter;
    StandOne(s, DisarmDone);
    if Takes(c, env) { ConsumeAgrees(s, c.(status := CacheStatus(c.status, env)), env, now); }
  }

  /** After the start-up step of a poll no configuration is still owed. */
  lemma BeforeRecvConfigures(s: Stand, c: Client, now: nat)
    requires Agrees(s, c) && (Overdue(c, now) ==> KeepaliveActive(c))
    ensures StandAfter(s, BeforeRecv(c, now).log) != MustConfigure
  {
    hide Opening, Begin, StandAfter, Expire, S.ShotExpire, KeepaliveDue;
    StandOne(s, DisarmStarted);
    var l := Lapse(c, now);
    if l.queue != [] { StandOne(s, Started(l.queue[0])); }
  }

  lemma PollAgrees(s: Stand, c: Client, tick: Tick)
    requires WF(c) && Agrees(s, c)
    ensures Agrees(StandAfter(s, Poll(c, tick).log), Poll(c, tick).c)
  {
    hide BeforeRecv, Deliver, WF, StandAfter, Overdue, KeepaliveActive, Agrees;
    StandOne(s, DisarmDone);
    if !(Overdue(c, tick.now) && !KeepaliveActive(c)) {
      BeforeRecvKeepsWF(c, tick.now);
      var b := BeforeRecv(c, tick.now);
      BeforeRecvAgrees(s, c, tick.now);
      BeforeRecvConfigures(s, c, tick.now);
      if tick.env.Some? {
        var s' := StandAfter(s, b.log);
        DeliverAgrees(s', b.c, tick.env.value, tick.now);
        StandAppend(s, b.log, Deliver(b.c, tick.env.value, tick.now).log);
      }
    }
  }

  /**
   * In every run each disarm is completed before anything else starts, and the next thing to start is an
   * AVR configuration; one is never in progress while the client believes the device armed.
   */
  lemma {:induction false} DisarmThenConfigure(start: nat, inputs: seq<UserInput>)
    ensures Agrees(StandAfter(Normal, Exec(start, inputs).log), Exec(start, inputs).c)
  {
    hide Poll, StandAfter;
    if inputs == [] {
      StandOne(Normal, DisarmDone);
    } else {
      var h := Exec(start, inputs[..|inputs| - 1]);
      DisarmThenConfigure(start, inputs[..|inputs| - 1]);
      match inputs[|inputs| - 1]
      case PollAt(tick) =>
        PollAgrees(StandAfter(Normal, h.log), h.c, tick);
        StandAppend(Normal, h.log, Poll(h.c, tick).log);
      case _ =>
    }
  }

  // ---- keepalive accounting ----------------------------------------------------------

  function Queued(ops: seq<Op>): nat {
    if ops == [] then 0 else (if ops[0].Keepalive? then 1 else 0) + Queued(ops[1..])
  }

  /** Keepalives queued or in progress. */
  function Keepalives(c: Client): nat { Queued(c.queue) + if KeepaliveActive(c) then 1 else 0 }

  /** The flag is never set without a keepalive that will clear it. */
  predicate FlagBacked(c: Client) { c.kaQueued ==> Keepalives(c) >= 1 }

  /** The flag says exactly how many keepalives there are. */
  predicate FlagExact(c: Client) { Keepalives(c) == if c.kaQueued then 1 else 0 }

  lemma {:induction false} QueuedAppend(a: seq<Op>, b: seq<Op>)
    ensures Queued(a + b) == Queued(a) + Queued(b)
  {
    if a == [] {
      assert a + b == b;
    } else {
      assert (a + b)[1..] == a[1..] + b;
      QueuedAppend(a[1..], b);
    }
  }

  lemma QueuedOne(op: Op)
    ensures Queued([op]) == if op.Keepalive? then 1 else 0
  {
    assert [op][1..] == [];
  }

  lemma StartCounts(c: Client, op: Op, now: nat)
    requires c.active.None?
    ensures var d := Start(c, op, now).c;
            && Keepalives(d) == (if op.Keepalive? then 1 else 0) + Queued(c.queue)
            && d.kaQueued == c.kaQueued && d.shot == c.shot && d.active.Some?
  {
    hide Opening, Begin, Queued;
    QueuedAppend([op], c.queue);
    QueuedOne(op);
  }

  lemma StartNextCounts(c: Client, now: nat)
    ensures Keepalives(StartNext(c, now).c) == Keepalives(c)
    ensures StartNext(c, now).c.kaQueued == c.kaQueued && StartNext(c, now).c.shot == c.shot
    ensures StartNext(c, now).c.active.None? ==> c.queue == [] && StartNext(c, now).c == c
  {
    hide Start, Queued;
    if c.active.None? && c.queue != [] {
      StartCounts(c.(queue := c.queue[1..]), c.queue[0], now);
      QueuedAppend([c.queue[0]], c.queue[1..]);
      QueuedOne(c.queue[0]);
      assert [c.queue[0]] + c.queue[1..] == c.queue;
    }
  }

  /** Before the socket is read: either nothing about keepalives changed, or one was queued. */
  lemma BeforeRecvCounts(c: Client, now: nat)
    requires Overdue(c, now) ==> KeepaliveActive(c)
    ensures var d := BeforeRecv(c, now).c;
            && (FlagBacked(c) ==> FlagBacked(d)) && (FlagExact(c) ==> FlagExact(d))
            && (d.active.None? ==> Queued(d.queue) <= 1)
            && (d.active.None? && Queued(d.queue) == 1 ==> d.kaQueued && !d.shot)
  {
    hide StartNext, Queued, Expire, S.ShotExpire, KeepaliveDue;
    var l := Lapse(c, now);
    StartNextCounts(l, now);
    QueuedNone();
    var n := StartNext(l, now).c;
    QueuedAppend(n.queue, [Keepalive]);
    QueuedOne(Keepalive);
    if KeepaliveDue(Expiries(n, now).c, now) { DueMeans(Expiries(n, now).c, now); }
  }

  lemma QueuedNone()
    ensures Queued([]) == 0
  {}

  lemma DueMeans(c: Client, now: nat)
    requires KeepaliveDue(c, now)
    ensures c.kaEnabled && !c.kaQueued && !c.shot
  {}

  lemma FinishCounts(c: Client, now: nat)
    requires c.active.Some? && !InHandshake(c.active.value)
    ensures FlagBacked(c) ==> FlagBacked(FinishOp(c, now).c)
    ensures FlagExact(c) ==> FlagExact(FinishOp(c, now).c)
  {
    hide StartNext, Queued;
    if c.active.value.KeepingAlive? {
      StartNextCounts(c.(active := None, deadline := None, kaQueued := false, lastKa := now), now);
    }
  }

  lemma ConsumeCounts(c: Client, env: Envelope, now: nat)
    requires c.active.Some? && WF(c)
    ensures FlagBacked(c) ==> FlagBacked(Consume(c, env, now).c)
    ensures FlagExact(c) ==> FlagExact(Consume(c, env, now).c)
  {
    hide FeedOp, Sound, Finished, FinishOp, Opening, Begin, Queued;
    var f := FeedOp(c.active.value, env, now);
    FeedKeepsSound(c.active.value, env, now);
    FeedKeepsKind(c.active.value, env, now);
    if f.signal.Done? { FinishCounts(c.(active := Some(f.a)), now); }
  }

  /** PROCESSED reaches shot detection. */
  predicate DetectsShot(c: Client, env: Envelope) {
    !Takes(c, env) && !SaysTrigger(env.message) && SaysProcessed(env.message)
  }

  lemma DeliverCounts(c: Client, env: Envelope, now: nat)
    requires WF(c)
    ensures FlagBacked(c) ==> FlagBacked(Deliver(c, env, now).c)
    ensures FlagExact(c) && !DetectsShot(c, env) ==> FlagExact(Deliver(c, env, now).c)
    ensures DetectsShot(c, env) ==>
              !Deliver(c, env, now).c.kaQueued && Keepalives(Deliver(c, env, now).c) == Queued(c.queue)
  {
    hide Consume, SaysTrigger, SaysProcessed, CacheStatus, Sound, Finished, Queued;
    if Takes(c, env) { ConsumeCounts(c.(status := CacheStatus(c.status, env)), env, now); }
  }

  /** The one poll that breaks the count: it has just queued a keepalive and now detects a shot. */
  predicate QueuesAndDetects(c: Client, tick: Tick) {
    && (Overdue(c, tick.now) ==> KeepaliveActive(c))
    && tick.env.Some?
    && var d := BeforeRecv(c, tick.now).c; Queued(d.queue) > 0 && DetectsShot(d, tick.env.value)
  }

  /** Exactly that poll breaks the exact count; the backed flag is kept by every poll. */
  lemma PollCounts(c: Client, tick: Tick)
    requires WF(c)
    ensures FlagBacked(c) ==> FlagBacked(Poll(c, tick).c)
    ensures FlagExact(c) ==> (FlagExact(Poll(c, tick).c) <==> !QueuesAndDetects(c, tick))
  {
    hide BeforeRecv, Deliver, WF, Overdue, KeepaliveActive, DetectsShot, Keepalives, Queued;
    if !(Overdue(c, tick.now) && !KeepaliveActive(c)) {
      BeforeRecvKeepsWF(c, tick.now);
      BeforeRecvCounts(c, tick.now);
      if tick.env.Some? { DeliverCounts(BeforeRecv(c, tick.now).c, tick.env.value, tick.now); }
    }
  }

  /** Keepalives beyond the one the flag stands for. */
  function Excess(c: Client): int { Keepalives(c) - if c.kaQueued then 1 else 0 }

  lemma StartNextExcess(c: Client, now: nat)
    ensures Excess(StartNext(c, now).c) == Excess(c)
  {
    hide StartNext, Keepalives;
    StartNextCounts(c, now);
  }

  lemma BeforeRecvExcess(c: Client, now: nat)
    requires Overdue(c, now) ==> KeepaliveActive(c)
    ensures Excess(BeforeRecv(c, now).c) <= Excess(c)
  {
    hide StartNext, Queued, Expire, S.ShotExpire, KeepaliveDue;
    var l := Lapse(c, now);
    var n := StartNext(l, now).c;
    StartNextExcess(l, now);
    QueuedAppend(n.queue, [Keepalive]);
    QueuedOne(Keepalive);
    if KeepaliveDue(Expiries(n, now).c, now) { DueMeans(Expiries(n, now).c, now); }
  }

  lemma FinishExcess(c: Client, now: nat)
    requires c.active.Some? && !InHandshake(c.active.value)
    ensures Excess(FinishOp(c, now).c) <= Excess(c)
  {
    hide StartNext, Queued;
    if c.active.value.KeepingAlive? {
      StartNextExcess(c.(active := None, deadline := None, kaQueued := false, lastKa := now), now);
    }
  }

  lemma ConsumeExcess(c: Client, env: Envelope, now: nat)
    requires c.active.Some? && WF(c)
    ensures Excess(Consume(c, env, now).c) <= Excess(c)
  {
    hide FeedOp, Sound, Finished, FinishOp, Opening, Begin, Queued;
    var f := FeedOp(c.active.value, env, now);
    FeedKeepsSound(c.active.value, env, now);
    FeedKeepsKind(c.active.value, env, now);
    if f.signal.Done? { FinishExcess(c.(active := Some(f.a)), now); }
  }

  lemma DeliverExcess(c: Client, env: Envelope, now: nat)
    requires WF(c) && FlagBacked(c)
    ensures Excess(Deliver(c, env, now).c) <= Excess(c) + if DetectsShot(c, env) && Queued(c.queue) > 0 then 1 else 0
  {
    hide Consume, SaysTrigger, SaysProcessed, CacheStatus, Sound, Finished, Queued;
    if Takes(c, env) { ConsumeExcess(c.(status := CacheStatus(c.status, env)), env, now); }
  }

  /** A poll leaves no more keepalives beyond the flag's than before, unless it is the one that breaks the count. */
  lemma PollExcess(c: Client, tick: Tick)
    requires WF(c) && FlagBacked(c)
    ensures Excess(Poll(c, tick).c) <= Excess(c) + if QueuesAndDetects(c, tick) then 1 else 0
  {
    hide BeforeRecv, Deliver, WF, Overdue, KeepaliveActive, DetectsShot, Excess, FlagBacked, Queued;
    if !(Overdue(c, tick.now) && !KeepaliveActive(c)) {
      BeforeRecvKeepsWF(c, tick.now);
      BeforeRecvCounts(c, tick.now);
      BeforeRecvExcess(c, tick.now);
      if tick.env.Some? { DeliverExcess(BeforeRecv(c, tick.now).c, tick.env.value, tick.now); }
    }
  }

  /** How many polls of a run have broken the count. */
  function Breaks(start: nat, inputs: seq<UserInput>): nat {
    if inputs == [] then 0
    else
      var before, i := inputs[..|inputs| - 1], inputs[|inputs| - 1];
      Breaks(start, before) + if i.PollAt? && QueuesAndDetects(Exec(start, before).c, i.tick) then 1 else 0
  }

  /**
   * In every run there are at most as many keepalives beyond the flag's as polls that queued one and then
   * detected a shot.
   */
  lemma {:induction false} ExcessBounded(start: nat, inputs: seq<UserInput>)
    ensures 0 <= Excess(Exec(start, inputs).c) <= Breaks(start, inputs)
  {
    QueuedFlagBacked(start, inputs);
    hide Poll, Queued, QueuesAndDetects, WF;
    if inputs == [] {
      QueuedNone();
    } else {
      var before := inputs[..|inputs| - 1];
      var h := Exec(start, before);
      ExcessBounded(start, before);
      QueuedFlagBacked(start, before);
      match inputs[|inputs| - 1]
      case Enqueue(op) =>
        QueuedAppend(h.c.queue, [op]);
        QueuedOne(op);
      case PollAt(tick) => PollExcess(h.c, tick);
      case _ =>
    }
  }

  /** The hypothesis a caller can check: PROCESSED is only detected once a shot has been announced. */
  predicate ShotAnnounced(c: Client, tick: Tick) {
    (Overdue(c, tick.now) ==> KeepaliveActive(c)) && tick.env.Some?
    ==> var d := BeforeRecv(c, tick.now).c; DetectsShot(d, tick.env.value) ==> d.shot
  }

  lemma AnnouncedNeverBreaks(c: Client, tick: Tick)
    requires WF(c) && FlagExact(c) && ShotAnnounced(c, tick)
    ensures !QueuesAndDetects(c, tick)
  {
    hide BeforeRecv, WF, Queued, Overdue, SaysTrigger, SaysProcessed;
    if Overdue(c, tick.now) ==> KeepaliveActive(c) { BeforeRecvCounts(c, tick.now); }
  }

  predicate AllAnnounced(start: nat, inputs: seq<UserInput>) {
    forall i | 0 <= i < |inputs| ::
      inputs[i].PollAt? ==> ShotAnnounced(Exec(start, inputs[..i]).c, inputs[i].tick)
  }

  /**
   * In every run a set queued flag has a keepalive behind it that will clear it. The flag therefore never
   * holds keepalives up for good; a missed shot can (see ShotDetection).
   */
  lemma {:induction false} QueuedFlagBacked(start: nat, inputs: seq<UserInput>)
    ensures FlagBacked(Exec(start, inputs).c)
  {
    hide Poll, Queued;
    if inputs == [] {
      QueuedNone();
    } else {
      var h := Exec(start, inputs[..|inputs| - 1]);
      QueuedFlagBacked(start, inputs[..|inputs| - 1]);
      match inputs[|inputs| - 1]
      case Enqueue(op) =>
        QueuedAppend(h.c.queue, [op]);
      case PollAt(tick) => PollCounts(h.c, tick);
      case _ =>
    }
  }

  /** In every run whose shots are announced there is one keepalive if the flag is set and none otherwise. */
  lemma {:induction false} KeepalivesCounted(start: nat, inputs: seq<UserInput>)
    requires AllAnnounced(start, inputs)
    ensures FlagExact(Exec(start, inputs).c)
  {
    hide Poll, Queued, ShotAnnounced;
    if inputs == [] {
      QueuedNone();
    } else {
      var before := inputs[..|inputs| - 1];
      var h := Exec(start, before);
      forall i | 0 <= i < |before| && before[i].PollAt?
        ensures ShotAnnounced(Exec(start, before[..i]).c, before[i].tick)
      {
        assert before[..i] == inputs[..i] && before[i] == inputs[i];
      }
      KeepalivesCounted(start, before);
      match inputs[|inputs| - 1]
      case Enqueue(op) =>
        QueuedAppend(h.c.queue, [op]);
        QueuedOne(op);
      case PollAt(tick) =>
        AnnouncedNeverBreaks(h.c, tick);
        PollCounts(h.c, tick);
      case _ =>
    }
  }

  lemma ExecOneMore(start: nat, inputs: seq<UserInput>, i: UserInput)
    ensures Exec(start, inputs + [i]) == Do(Exec(start, inputs), i)
  {
    assert (inputs + [i])[..|inputs|] == inputs;
  }

  /** A message while arming, with keepalives not yet enabled. */
  lemma ArmingPoll(c: Client, a: R.ArmState, tick: Tick)
    requires WF(c) && c.active == Some(Arming(a)) && !c.kaEnabled && !Overdue(c, tick.now) && tick.env.Some?
    ensures var (next, s) := (R.ArmFeed(a, tick.env.value).next, CacheStatus(c.status, tick.env.value));
            Poll(c, tick).c ==
              if next.pos == 4 then
                c.(active := None, deadline := None, armed := true, kaEnabled := true, lastKa := tick.now, status := s)
              else c.(active := Some(Arming(next)), status := s)
  {
    hide WF, R.ArmFeed, CacheStatus;
    BeforeRecvKeepsWF(c, tick.now);
    assert BeforeRecv(c, tick.now).c == c;
  }

  lemma ArmingStarts(c: Client, tick: Tick)
    requires WF(c) && c.active.None? && c.deadline.None? && c.queue == [Arm] && c.opTimeout > 0
    requires tick.env.None? && !c.kaEnabled
    ensures Poll(c, tick).c == c.(queue := [], active := Some(Arming(R.BEGIN)), deadline := Some(tick.now + c.opTimeout))
  {
    hide WF;
  }

  function ArmingMessages(): seq<Envelope> {
    [Envelope(Dsp, DspStatus(DspStatusData(0, []))), Envelope(Avr, AvrStatus([])), Envelope(Avr, ConfigAck([])),
     Envelope(Pi, PiStatus([])), Envelope(Dsp, Text("ARMED"))]
  }

  /** A run to an armed, idle client: an ordinary arm at time 0. */
  lemma ArmedRun() returns (inputs: seq<UserInput>)
    ensures var c := Exec(0, inputs).c;
            && c.active.None? && c.queue == [] && c.kaEnabled && !c.kaQueued && !c.shot
            && c.lastKa == 0 && c.kaInterval == DEFAULT_KEEPALIVE_INTERVAL && c.opTimeout == DEFAULT_OP_TIMEOUT
  {
    hide Poll, WF, R.ArmFeed, SaysArmed, CacheStatus;
    var ms := ArmingMessages();
    var idle: Input := PollAt(Tick(0, None));
    inputs := [Enqueue(Arm)];
    ExecOneMore(0, [], Enqueue(Arm));
    assert [] + inputs == inputs && [] + [Arm] == [Arm];
    ArmingStarts(Exec(0, inputs).c, Tick(0, None));
    ExecOneMore(0, inputs, idle);
    inputs := inputs + [idle];
    var a := R.BEGIN;
    for k := 0 to 5
      invariant ms == ArmingMessages()
      invariant WF(Exec(0, inputs).c)
      invariant k < 5 ==> Exec(0, inputs).c.active == Some(Arming(a)) && Exec(0, inputs).c.deadline == Some(30000)
      invariant k < 5 ==> !Exec(0, inputs).c.kaEnabled && a == R.ArmState(0, if k < 4 then k else 3, k == 4, false)
      invariant k == 5 ==> Exec(0, inputs).c.active.None? && Exec(0, inputs).c.kaEnabled && Exec(0, inputs).c.lastKa == 0
      invariant Exec(0, inputs).c.queue == [] && !Exec(0, inputs).c.kaQueued && !Exec(0, inputs).c.shot
      invariant Exec(0, inputs).c.kaInterval == DEFAULT_KEEPALIVE_INTERVAL
      invariant Exec(0, inputs).c.opTimeout == DEFAULT_OP_TIMEOUT
    {
      var tick := Tick(0, Some(ms[k]));
      ArmingPoll(Exec(0, inputs).c, a, tick);
      ArmingStep(k, a);
      ExecOneMore(0, inputs, PollAt(tick));
      inputs := inputs + [PollAt(tick)];
      a := R.ArmFeed(a, ms[k]).next;
    }
  }

  lemma ArmingStep(k: nat, a: R.ArmState)
    requires k < 5 && a == R.ArmState(0, if k < 4 then k else 3, k == 4, false)
    ensures R.ArmFeed(a, ArmingMessages()[k]).next
         == if k < 4 then R.ArmState(0, if k < 3 then k + 1 else 3, k == 3, false) else R.ArmState(0, 4, true, true)
  {
    hide Contains;
    ArmedText();
  }

  lemma ArmedText()
    ensures SaysArmed(Text("ARMED"))
  {
    var t := "ARMED";
    assert OccursAt(t, "ARMED", 0);
    assert |t| == 5 && |"CANCELLED"| == 9;
  }

  /**
   * Without the announcement the exact count fails in a reachable state: one second after an ordinary arm, a
   * PROCESSED out of the blue arrives in the poll that has just queued a keepalive, which stays queued with
   * the flag cleared.
   */
  lemma UnannouncedShotMiscounts()
    ensures exists inputs: seq<UserInput>, tick :: FlagExact(Exec(0, inputs).c) && !FlagExact(Exec(0, inputs + [PollAt(tick)]).c)
  {
    hide Poll, Exec, Queued;
    var inputs := ArmedRun();
    var c := Exec(0, inputs).c;
    var tick := Tick(1000, Some(Envelope(Avr, ShotText("PROCESSED"))));
    ExecOneMore(0, inputs, PollAt(tick));
    QueuedNone();
    QueuedOne(Keepalive);
    ProcessedOutOfTheBlue(c, tick);
  }

  lemma ProcessedOutOfTheBlue(c: Client, tick: Tick)
    requires WF(c) && c.active.None? && c.queue == [] && c.kaEnabled && !c.kaQueued && !c.shot
    requires c.lastKa == 0 && c.kaInterval == 1000 && tick == Tick(1000, Some(Envelope(Avr, ShotText("PROCESSED"))))
    ensures var d := Poll(c, tick).c; d.queue == [Keepalive] && !d.kaQueued && !KeepaliveActive(d)
  {
    var m := ShotText("PROCESSED");
    assert SaysProcessed(m) by { assert OccursAt(m.text, "PROCESSED", 0); }
    NoTrigger(m);
    hide SaysTrigger, SaysProcessed;
    assert c.deadline.None?;
    hide WF;
    BeforeRecvKeepsWF(c, 1000);
    assert [] + [Keepalive] == [Keepalive];
    assert BeforeRecv(c, 1000).c == c.(queue := [Keepalive], kaQueued := true);
  }

  lemma NoTrigger(m: Message)
    requires m == ShotText("PROCESSED")
    ensures !SaysTrigger(m)
  {
    assert |"BALL TRIGGER"| == 12 && |m.text| == 9;
  }

  // ---- keepalives are transparent ------------------------------------------------------

  /** Equal but for the keepalive: one client idles while the other has a keepalive in flight, or neither differs. */
  predicate AlikeButKeepalive(idle: Client, busy: Client) {
    || (idle.active.None? && KeepaliveActive(busy)
        && busy.(active := None, deadline := idle.deadline, kaQueued := idle.kaQueued) == idle)
    || busy == idle
  }

  lemma DeliverTransparent(idle: Client, busy: Client, env: Envelope, now: nat)
    requires WF(idle) && WF(busy) && AlikeButKeepalive(idle, busy) && !IsStatusReply(env)
    ensures var (o, b) := (Deliver(idle, env, now), Deliver(busy, env, now));
            o.sent == b.sent && o.result == b.result && AlikeButKeepalive(o.c, b.c)
  {
    hide Consume, Detect, CacheStatus, WF, IsStatusReply;
    if idle != busy {
      DetectTransparent(idle.(status := CacheStatus(idle.status, env)), busy.(status := CacheStatus(busy.status, env)), env, now);
    }
  }

  lemma DetectTransparent(idle: Client, busy: Client, env: Envelope, now: nat)
    requires AlikeButKeepalive(idle, busy)
    ensures var (o, b) := (Detect(idle, env, now), Detect(busy, env, now));
            o.sent == b.sent && o.result == b.result && AlikeButKeepalive(o.c, b.c)
  {
    hide SaysTrigger, SaysProcessed;
  }

  /** A message and when it is delivered. */
  datatype Arrival = Arrival(now: nat, env: Envelope)

  function DeliverAll(c: Client, arrivals: seq<Arrival>): (r: (seq<Action>, seq<Event>, Client))
    requires WF(c)
    ensures WF(r.2)
  {
    if arrivals == [] then ([], [], c)
    else
      var before := DeliverAll(c, arrivals[..|arrivals| - 1]);
      var last := arrivals[|arrivals| - 1];
      DeliverKeepsWF(before.2, last.env, last.now);
      var o := Deliver(before.2, last.env, last.now);
      (before.0 + o.sent, before.1 + EventsOf(o.result), o.c)
  }

  /**
   * A keepalive in flight never swallows a trigger, PROCESSED, early shot data or anything else: over any
   * messages that are not status replies, whenever each arrives, the commands, events and shot and armed
   * flags are the same.
   */
  lemma {:induction false} KeepaliveTransparent(idle: Client, busy: Client, arrivals: seq<Arrival>)
    requires WF(idle) && WF(busy) && AlikeButKeepalive(idle, busy)
    requires forall i | 0 <= i < |arrivals| :: !IsStatusReply(arrivals[i].env)
    ensures DeliverAll(idle, arrivals).0 == DeliverAll(busy, arrivals).0
    ensures DeliverAll(idle, arrivals).1 == DeliverAll(busy, arrivals).1
    ensures DeliverAll(idle, arrivals).2.shot == DeliverAll(busy, arrivals).2.shot
    ensures DeliverAll(idle, arrivals).2.armed == DeliverAll(busy, arrivals).2.armed
    ensures AlikeButKeepalive(DeliverAll(idle, arrivals).2, DeliverAll(busy, arrivals).2)
  {
    hide Deliver, WF, IsStatusReply;
    if arrivals != [] {
      var before, last := arrivals[..|arrivals| - 1], arrivals[|arrivals| - 1];
      KeepaliveTransparent(idle, busy, before);
      DeliverTransparent(DeliverAll(idle, before).2, DeliverAll(busy, before).2, last.env, last.now);
    }
  }

  // ---- the flags are what the events say -----------------------------------------------

  datatype Flags = Flags(armed: bool, shot: bool, kaEnabled: bool, device: Option<HandshakeOutcome>)

  function FlagsOf(c: Client): Flags { Flags(c.armed, c.shot, c.kaEnabled, c.device) }

  /** What an event tells its reader about the device. */
  function After(f: Flags, e: Event): Flags {
    match e
    case HandshakeDone(h) => f.(device := Some(h), armed := f.armed || h.dsp.status.state == 6)
    case Disarmed => f.(armed := false, kaEnabled := false)
    case Armed => f.(armed := true, kaEnabled := true)
    case Trigger => f.(shot := true, armed := false)
    case ShotComplete(_) => f.(shot := false, armed := true)
    case _ => f
  }

  function AfterAll(f: Flags, es: seq<Event>): Flags {
    if es == [] then f else After(AfterAll(f, es[..|es| - 1]), es[|es| - 1])
  }

  lemma AfterResult(f: Flags, es: seq<Event>, r: Outcome)
    ensures AfterAll(f, es + EventsOf(r)) == if r.Emit? then After(AfterAll(f, es), r.event) else AfterAll(f, es)
  {
    Associative(es, [], []);
    if r.Emit? { assert (es + [r.event])[..|es|] == es; }
  }

  predicate FlagsFollow(before: Client, o: Out) {
    FlagsOf(o.c) == if o.result.Emit? then After(FlagsOf(before), o.result.event) else FlagsOf(before)
  }

  lemma StartNextKeepsFlags(c: Client, now: nat)
    ensures FlagsOf(StartNext(c, now).c) == FlagsOf(c)
  {
    hide Opening, Begin;
  }

  lemma BeforeRecvKeepsFlags(c: Client, now: nat)
    ensures FlagsOf(BeforeRecv(c, now).c) == FlagsOf(c) && BeforeRecv(c, now).result == Quiet
  {
    hide StartNext, Expire, S.ShotExpire, KeepaliveDue;
    StartNextKeepsFlags(Lapse(c, now), now);
  }

  lemma FinishFlags(c: Client, now: nat)
    requires c.active.Some? && !InHandshake(c.active.value)
    ensures FlagsFollow(c, FinishOp(c, now))
  {
    hide StartNext;
    if c.active.value.KeepingAlive? {
      StartNextKeepsFlags(c.(active := None, deadline := None, kaQueued := false, lastKa := now), now);
    }
  }

  lemma AdvanceFlags(c: Client, now: nat)
    requires c.active.Some? && Sound(c.active.value) && Finished(c.active.value) && InHandshake(c.active.value)
    ensures FlagsFollow(c, AdvancePhase(c, now))
  {
    hide Sound, Finished, Opening, Begin, D.DspResult, A.AvrResult, P.PiResult;
  }

  lemma ConsumeFlags(c: Client, env: Envelope, now: nat)
    requires c.active.Some? && WF(c)
    ensures FlagsFollow(c, Consume(c, env, now))
  {
    hide FeedOp, Sound, Finished, FinishOp, AdvancePhase, InHandshake, After;
    var f := FeedOp(c.active.value, env, now);
    var c' := c.(active := Some(f.a));
    FeedKeepsSound(c.active.value, env, now);
    DatumTellsNothing(FlagsOf(c));
    match f.signal
    case PhaseComplete => AdvanceFlags(c', now);
    case Done => FinishFlags(c', now);
    case _ =>
  }

  lemma DatumTellsNothing(f: Flags)
    ensures forall d :: After(f, Datum(d)) == f
  {}

  lemma DetectFlags(c: Client, env: Envelope, now: nat)
    ensures FlagsFollow(c, Detect(c, env, now))
  {
    hide SaysTrigger, SaysProcessed;
  }

  lemma DeliverFlags(c: Client, env: Envelope, now: nat)
    requires WF(c)
    ensures FlagsFollow(c, Deliver(c, env, now))
  {
    hide Consume, Detect, CacheStatus, Sound, Finished, After;
    var c' := c.(status := CacheStatus(c.status, env));
    if Takes(c, env) { ConsumeFlags(c', env, now); } else { DetectFlags(c', env, now); }
  }

  lemma PollFlags(c: Client, tick: Tick)
    requires WF(c)
    ensures FlagsFollow(c, Poll(c, tick))
  {
    hide BeforeRecv, Deliver, WF, Overdue, KeepaliveActive, After;
    if !(Overdue(c, tick.now) && !KeepaliveActive(c)) {
      BeforeRecvKeepsWF(c, tick.now);
      BeforeRecvKeepsFlags(c, tick.now);
      if tick.env.Some? { DeliverFlags(BeforeRecv(c, tick.now).c, tick.env.value, tick.now); }
    }
  }

  /**
   * In every run the armed and shot flags, whether keepalives are on, and the device on record are exactly
   * what a caller folding the emitted events would have: no state changes behind the caller's back.
   */
  lemma {:induction false} FlagsFollowEvents(start: nat, inputs: seq<UserInput>)
    ensures FlagsOf(Exec(start, inputs).c) == AfterAll(Flags(false, false, false, None), Exec(start, inputs).events)
  {
    hide Poll, After;
    if inputs != [] {
      var h := Exec(start, inputs[..|inputs| - 1]);
      FlagsFollowEvents(start, inputs[..|inputs| - 1]);
      match inputs[|inputs| - 1]
      case PollAt(tick) =>
        PollFlags(h.c, tick);
        AfterResult(Flags(false, false, false, None), h.events, Poll(h.c, tick).result);
      case _ =>
    }
  }

  // ---- a timeout is final --------------------------------------------------------------

  /** After an operation timeout polling changes nothing, sends nothing and reports only the timeout. */
  lemma {:induction false} TimeoutIsFinal(c: Client, now: nat, ticks: seq<Tick>)
    requires WF(c) && Overdue(c, now) && !KeepaliveActive(c)
    requires forall i | 0 <= i < |ticks| :: now <= ticks[i].now
    ensures PollAll(c, ticks).c == c && PollAll(c, ticks).sent == [] && PollAll(c, ticks).events == []
    ensures PollAll(c, ticks).timedOut <==> ticks != []
    decreases |ticks|
  {
    hide WF, BeforeRecv, Deliver;
    if ticks != [] { TimeoutIsFinal(c, now, ticks[1..]); }
  }

  /** While nothing arrives an operation keeps its deadline. */
  lemma SilentPoll(c: Client, now: nat)
    requires WF(c) && c.active.Some? && !KeepaliveActive(c)
    ensures var o := Poll(c, Tick(now, None));
            if now >= c.deadline.value then o.result == TimedOut
            else o.result == Quiet && o.c.active.Some? && !KeepaliveActive(o.c) && o.c.deadline == c.deadline
  {
    hide Sound, Finished, Expire, S.ShotExpire, KeepaliveDue;
    if now < c.deadline.value { assert StartNext(Lapse(c, now), now) == Out(c, [], [], Quiet); }
  }

  /** An operation that hears nothing times out exactly when a poll comes at its deadline or later. */
  lemma {:induction false} SilenceTimesOutExactly(c: Client, ticks: seq<Tick>)
    requires WF(c) && c.active.Some? && !KeepaliveActive(c)
    requires forall i | 0 <= i < |ticks| :: ticks[i].env.None?
    ensures PollAll(c, ticks).timedOut <==> exists i | 0 <= i < |ticks| :: ticks[i].now >= c.deadline.value
    decreases |ticks|
  {
    hide Poll, Sound, Finished, KeepaliveActive;
    if ticks != [] {
      var o := Poll(c, ticks[0]);
      SilentPoll(c, ticks[0].now);
      PollKeepsWF(c, ticks[0]);
      if o.result == Quiet { SilenceTimesOutExactly(o.c, ticks[1..]); }
    }
  }

  /** Every other operation than a keepalive is given the operation timeout, 30 seconds unless set otherwise. */
  lemma DeadlinesGiven(c: Client, now: nat)
    requires c.active.None? && c.queue != [] && !c.queue[0].Keepalive?
    ensures var d := StartNext(c, now).c;
            d.active.Some? && !KeepaliveActive(d) && d.deadline == Some(now + c.opTimeout) && d.opTimeout == c.opTimeout
    ensures New(now).opTimeout == 30000 && New(now).kaInterval == 1000
  {
    hide Opening, Begin;
  }

  /** Each handshake phase is given the whole timeout again. */
  lemma PhaseDeadlinesGiven(c: Client, now: nat)
    requires c.active.Some? && Sound(c.active.value) && Finished(c.active.value) && InHandshake(c.active.value)
    ensures var d := AdvancePhase(c, now).c;
            if c.active.value.HsPi? then d.active.None? && d.deadline.None? else d.deadline == Some(now + c.opTimeout)
  {
    hide Sound, Finished, Opening, Begin, D.DspResult, A.AvrResult, P.PiResult;
  }
}
