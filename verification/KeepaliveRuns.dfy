/**
 * A keepalive from its three polls to its end, and the time between two of them, as the caller of `poll` sees
 * them (src/client.rs). What counts as an answer is told from the messages, without the collector.
 */
module KeepaliveRuns {
  import opened Prelude
  import opened Wire
  import opened Protocol
  import opened Script
  import opened ClientSpec
  import opened ClientRuns
  import opened ShotDetection
  import C = ConfigSeq
  import D = DspSeq
  import S = ShotSeq

  // ---- when a keepalive is done ------------------------------------------------------------

  /** The node's own kind of status, sent by that node. */
  predicate IsAnswer(node: BusAddr, env: Envelope) {
    && env.src == node
    && match node
       case Dsp => env.message.DspStatus?
       case Avr => env.message.AvrStatus?
       case Pi => env.message.PiStatus?
       case App => false
  }

  predicate Heard(node: BusAddr, ms: seq<Envelope>) { exists i :: 0 <= i < |ms| && IsAnswer(node, ms[i]) }

  /** All three nodes have answered, in any order and with anything in between. */
  predicate AllHeard(ms: seq<Envelope>) { Heard(Dsp, ms) && Heard(Avr, ms) && Heard(Pi, ms) }

  /** The node's last answer. */
  function LastAnswer(node: BusAddr, ms: seq<Envelope>): (r: Option<Message>)
    ensures r.Some? <==> Heard(node, ms)
    ensures r.Some? ==> IsAnswer(node, Envelope(node, r.value))
    ensures r.Some? ==> exists i :: 0 <= i < |ms| && ms[i].message == r.value && IsAnswer(node, ms[i])
                                    && forall j :: i < j < |ms| ==> !IsAnswer(node, ms[j])
    decreases |ms|
  {
    if ms == [] then None
    else
      var last := ms[|ms| - 1];
      if IsAnswer(node, last) then Some(last.message)
      else
        assert forall i :: 0 <= i < |ms| - 1 ==> ms[i] == ms[..|ms| - 1][i];
        LastAnswer(node, ms[..|ms| - 1])
  }

  /** The latest of what the messages bring and what was known before. */
  predicate Shows(status: Snapshot, before: Snapshot, ms: seq<Envelope>) {
    && status.dsp == (if Heard(Dsp, ms) then Some(LastAnswer(Dsp, ms).value.dsp) else before.dsp)
    && status.avr == (if Heard(Avr, ms) then Some(LastAnswer(Avr, ms).value.body) else before.avr)
    && status.pi == (if Heard(Pi, ms) then Some(LastAnswer(Pi, ms).value.body) else before.pi)
  }

  lemma OneMoreHeard(node: BusAddr, ms: seq<Envelope>, env: Envelope)
    ensures Heard(node, ms + [env]) <==> Heard(node, ms) || IsAnswer(node, env)
    ensures LastAnswer(node, ms + [env]) == if IsAnswer(node, env) then Some(env.message) else LastAnswer(node, ms)
  {
    var more := ms + [env];
    assert more[..|ms|] == ms && more[|ms|] == env;
    hide IsAnswer;
    assert forall i :: 0 <= i < |ms| ==> ms[i] == more[i];
  }

  function HeardFrom(ms: seq<Envelope>): KaState { KaState(Heard(Dsp, ms), Heard(Avr, ms), Heard(Pi, ms)) }

  /** A keepalive that has heard these messages, sent when the status on record was `before`. */
  predicate Waits(c: Client, before: Snapshot, ms: seq<Envelope>) {
    && WF(c) && !AllHeard(ms)
    && c.active == Some(KeepingAlive(HeardFrom(ms)))
    && Shows(c.status, before, ms)
  }

  predicate Finishes(r: Outcome) { r.Emit? && r.event.KeepaliveDone? }

  /** Before it reads, a poll of a keepalive can only queue another. */
  lemma WaitsBeforeRecv(c: Client, before: Snapshot, ms: seq<Envelope>, now: nat)
    requires Waits(c, before, ms) && !Overdue(c, now)
    ensures var b := BeforeRecv(c, now);
            && b.sent == [] && b.result == Quiet && Waits(b.c, before, ms)
            && b.c == c.(queue := b.c.queue, kaQueued := b.c.kaQueued)
  {
    hide Heard, Shows, KeepaliveDue;
  }

  /** Starting an operation touches neither the status on record nor the keepalive timing. */
  lemma StartNextKeepsTiming(c: Client, now: nat)
    ensures var d := StartNext(c, now).c;
            && d.status == c.status && d.lastKa == c.lastKa && d.kaQueued == c.kaQueued && d.kaInterval == c.kaInterval
  {
    hide Start;
    if c.active.None? && c.queue != [] { StartKeepsTiming(c.(queue := c.queue[1..]), c.queue[0], now); }
  }

  lemma StartKeepsTiming(c: Client, op: Op, now: nat)
    ensures var d := Start(c, op, now).c;
            && d.status == c.status && d.lastKa == c.lastKa && d.kaQueued == c.kaQueued && d.kaInterval == c.kaInterval
  {
    hide Opening, Begin, D.DspScript, C.DisarmScript, C.AvrConfigScript, C.CamScript;
  }

  /** The collector and the status on record after one more message. */
  lemma OneMoreFed(status: Snapshot, before: Snapshot, ms: seq<Envelope>, env: Envelope)
    requires Shows(status, before, ms)
    ensures HeardFrom(ms + [env]) == KaFeed(HeardFrom(ms), env)
    ensures Shows(CacheStatus(status, env), before, ms + [env])
    ensures !IsStatusReply(env) ==> KaFeed(HeardFrom(ms), env) == HeardFrom(ms)
  {
    OneMoreHeard(Dsp, ms, env);
    OneMoreHeard(Avr, ms, env);
    OneMoreHeard(Pi, ms, env);
    hide Heard, LastAnswer;
  }

  /** One message: passed by, or taken as its node's answer. */
  lemma WaitsDeliver(c: Client, before: Snapshot, ms: seq<Envelope>, env: Envelope, now: nat)
    requires Waits(c, before, ms) && !Processed(env)
    ensures var (o, more) := (Deliver(c, env, now), ms + [env]);
            && o.result != TimedOut && (Finishes(o.result) <==> AllHeard(more)) && Shows(o.c.status, before, more)
            && (if AllHeard(more) then o.result == Emit(KeepaliveDone(o.c.status)) && o.c.lastKa == now && !o.c.kaQueued
                else o.sent == [] && o.c.deadline == c.deadline && Waits(o.c, before, more))
  {
    hide Heard, Shows, CacheStatus, IsStatusReply, KaFeed, SaysTrigger, SaysProcessed, StartNext;
    OneMoreFed(c.status, before, ms, env);
    var idle := c.(status := CacheStatus(c.status, env), active := None, deadline := None, kaQueued := false, lastKa := now);
    StartNextKeepsTiming(idle, now);
  }

  lemma WaitsPoll(c: Client, before: Snapshot, ms: seq<Envelope>, tick: Tick)
    requires Waits(c, before, ms) && !Overdue(c, tick.now) && (tick.env.Some? ==> !Processed(tick.env.value))
    ensures var (o, more) := (Poll(c, tick), ms + MessagesIn([tick]));
            && o.result != TimedOut && (Finishes(o.result) <==> AllHeard(more)) && Shows(o.c.status, before, more)
            && (if AllHeard(more) then o.result == Emit(KeepaliveDone(o.c.status)) && o.c.lastKa == tick.now && !o.c.kaQueued
                else o.sent == [] && o.c.deadline == c.deadline && Waits(o.c, before, more))
  {
    hide WF, Heard, Shows, BeforeRecv, Deliver, Processed, Overdue;
    WaitsBeforeRecv(c, before, ms, tick.now);
    MessageIn(tick);
    Associative(ms, [], []);
    BeforeRecvKeepsWF(c, tick.now);
    if tick.env.Some? {
      var b := BeforeRecv(c, tick.now);
      WaitsDeliver(b.c, before, ms, tick.env.value, tick.now);
      Associative(Deliver(b.c, tick.env.value, tick.now).sent, [], []);
    }
  }

  lemma MessageIn(tick: Tick)
    ensures MessagesIn([tick]) == if tick.env.Some? then [tick.env.value] else []
  {
    assert [tick][1..] == [];
  }

  /** Every round comes before the deadline, and none brings a PROCESSED. */
  predicate Undisturbed(deadline: Option<nat>, ticks: seq<Tick>) {
    && deadline.Some?
    && forall i | 0 <= i < |ticks| ::
         ticks[i].now < deadline.value && (ticks[i].env.Some? ==> !Processed(ticks[i].env.value))
  }

  predicate Reports(events: seq<Event>) { exists i :: 0 <= i < |events| && events[i].KeepaliveDone? }

  lemma ReportsFirst(r: Outcome, rest: seq<Event>)
    ensures Reports(EventsOf(r) + rest) <==> Finishes(r) || Reports(rest)
  {
    var first := EventsOf(r);
    assert forall i :: 0 <= i < |rest| ==> (first + rest)[|first| + i] == rest[i];
    if Finishes(r) { assert (first + rest)[0] == r.event; }
  }

  lemma HeardStays(node: BusAddr, ms: seq<Envelope>, more: seq<Envelope>)
    ensures Heard(node, ms) ==> Heard(node, ms + more)
  {
    if Heard(node, ms) {
      var i :| 0 <= i < |ms| && IsAnswer(node, ms[i]);
      assert (ms + more)[i] == ms[i];
    }
  }

  lemma {:induction false} WaitsRun(c: Client, before: Snapshot, ms: seq<Envelope>, ticks: seq<Tick>)
    requires Waits(c, before, ms) && WF(c) && Undisturbed(c.deadline, ticks)
    ensures var (p, more) := (PollAll(c, ticks), ms + MessagesIn(ticks));
            && (Reports(p.events) <==> AllHeard(more))
            && (!AllHeard(more) ==> Waits(p.c, before, more) && p.c.deadline == c.deadline && p.sent == [] && !p.timedOut)
    decreases |ticks|
  {
    hide WF, Poll, Heard, Shows, Processed;
    Associative(ms, [], []);
    if ticks != [] {
      var t, rest := ticks[0], ticks[1..];
      WaitsPoll(c, before, ms, t);
      PollKeepsWF(c, t);
      var o, more := Poll(c, t), ms + MessagesIn([t]);
      MessagesInFirst(ticks);
      Associative(ms, MessagesIn([t]), MessagesIn(rest));
      ReportsFirst(o.result, PollAll(o.c, rest).events);
      if AllHeard(more) {
        HeardStays(Dsp, more, MessagesIn(rest));
        HeardStays(Avr, more, MessagesIn(rest));
        HeardStays(Pi, more, MessagesIn(rest));
      } else {
        WaitsRun(o.c, before, more, rest);
      }
    }
  }

  lemma MessagesInFirst(ticks: seq<Tick>)
    requires ticks != []
    ensures MessagesIn(ticks) == MessagesIn([ticks[0]]) + MessagesIn(ticks[1..])
  {
    assert [ticks[0]][1..] == [];
  }

  /**
   * From its polls on, while its deadline has not passed and no PROCESSED has come: a keepalive is reported
   * if and only if the DSP, the AVR and the Pi have each answered with a status of their own, in any order.
   */
  lemma KeepaliveReportedExactly(c: Client, ticks: seq<Tick>)
    requires WF(c) && c.active == Some(KeepingAlive(NONE_YET)) && Undisturbed(c.deadline, ticks)
    ensures Reports(PollAll(c, ticks).events) <==> AllHeard(MessagesIn(ticks))
  {
    WaitsRun(c, c.status, [], ticks);
    Associative(MessagesIn(ticks), [], []);
  }

  /**
   * The poll that reports it is the one that brings the last of the three answers, and the status reported is
   * each node's latest; until then the keepalive waits, under the same deadline, and sends nothing.
   */
  lemma KeepaliveDoneExactly(c: Client, ticks: seq<Tick>, last: Tick)
    requires WF(c) && c.active == Some(KeepingAlive(NONE_YET))
    requires Undisturbed(c.deadline, ticks) && Undisturbed(c.deadline, [last]) && !AllHeard(MessagesIn(ticks))
    ensures var p := PollAll(c, ticks);
            var (o, ms) := (Poll(p.c, last), MessagesIn(ticks) + MessagesIn([last]));
            && p.sent == [] && !p.timedOut && KeepaliveActive(p.c) && p.c.deadline == c.deadline
            && (Finishes(o.result) <==> AllHeard(ms))
            && (if AllHeard(ms) then
                  && o.result == Emit(KeepaliveDone(Snapshot(Some(LastAnswer(Dsp, ms).value.dsp),
                                                             Some(LastAnswer(Avr, ms).value.body),
                                                             Some(LastAnswer(Pi, ms).value.body))))
                  && o.c.lastKa == last.now && !o.c.kaQueued
                else KeepaliveActive(o.c) && o.c.deadline == c.deadline)
  {
    WaitsRun(c, c.status, [], ticks);
    Associative(MessagesIn(ticks), [], []);
    assert last == [last][0];
    WaitsPoll(PollAll(c, ticks).c, c.status, MessagesIn(ticks), last);
    hide PollAll, Poll, WF, Heard, Processed;
  }

  /** A queued keepalive starts with three polls, the Pi's in its own mode, and has three seconds. */
  lemma KeepaliveStarts(c: Client, now: nat)
    requires c.active.None? && c.queue != [] && c.queue[0].Keepalive?
    ensures var o := StartNext(c, now);
            && o.sent == [Send(StatusPoll(false), Dsp), Send(StatusPoll(false), Avr), Send(StatusPoll(true), Pi)]
            && o.c == c.(queue := c.queue[1..], active := Some(KeepingAlive(NONE_YET)), deadline := Some(now + 3000))
  {}

  /** Three seconds without all three answers end a keepalive: no error, nothing reported, and the interval starts anew. */
  lemma KeepaliveLapses(c: Client, now: nat)
    requires WF(c) && KeepaliveActive(c) && c.queue == []
    ensures var o := Poll(c, Tick(now, None));
            && o.result == Quiet && o.sent == []
            && (if now >= c.deadline.value then o.c.active.None? && o.c.lastKa == now
                else o.c.active == c.active && o.c.lastKa == c.lastKa)
  {
    hide Sound, KeepaliveDue;
    assert StartNext(Lapse(c, now), now) == Out(Lapse(c, now), [], [], Quiet);
    assert Expiries(Lapse(c, now), now) == Out(Lapse(c, now), [], [], Quiet);
  }

  // ---- the time between two keepalives -------------------------------------------------------

  /** What is reported at the end of a keepalive, an arm or a shot. */
  predicate Restarts(r: Outcome) {
    r.Emit? && (r.event.KeepaliveDone? || r.event.Armed? || r.event.ShotComplete?)
  }

  predicate Dated(c: Client, o: Out, now: nat) {
    && o.c.kaInterval == c.kaInterval && (o.c.lastKa == c.lastKa || o.c.lastKa == now)
    && (Restarts(o.result) ==> o.c.lastKa == now) && (Finishes(o.result) ==> !o.c.kaQueued)
  }

  lemma FinishTiming(c: Client, now: nat)
    requires c.active.Some? && !InHandshake(c.active.value)
    ensures var o := FinishOp(c, now); Dated(c, o, now) && (o.c.kaQueued ==> c.kaQueued) && o.c.status == c.status
  {
    hide StartNext;
    StartNextKeepsTiming(c.(active := None, deadline := None, kaQueued := false, lastKa := now), now);
  }

  lemma ConsumeTiming(c: Client, env: Envelope, now: nat)
    requires WF(c) && c.active.Some?
    ensures var o := Consume(c, env, now); Dated(c, o, now) && (o.c.kaQueued ==> c.kaQueued) && o.c.status == c.status
  {
    hide FeedOp, Sound, Finished, FinishOp, Opening, Begin;
    var f := FeedOp(c.active.value, env, now);
    FeedKeepsSound(c.active.value, env, now);
    if f.signal.Done? { FinishTiming(c.(active := Some(f.a)), now); }
  }

  lemma DeliverTiming(c: Client, env: Envelope, now: nat)
    requires WF(c)
    ensures var o := Deliver(c, env, now); Dated(c, o, now) && (o.c.kaQueued ==> c.kaQueued)
    ensures Deliver(c, env, now).c.status == CacheStatus(c.status, env)
  {
    hide Consume, SaysTrigger, SaysProcessed, CacheStatus, Sound, Finished;
    if Takes(c, env) { ConsumeTiming(c.(status := CacheStatus(c.status, env)), env, now); }
  }

  lemma ExpiriesKeepTiming(c: Client, now: nat)
    ensures Expiries(c, now).c == c.(active := Expiries(c, now).c.active)
  {
    hide Expire, S.ShotExpire;
  }

  lemma BeforeRecvTiming(c: Client, now: nat)
    ensures var d := BeforeRecv(c, now).c;
            && d.kaInterval == c.kaInterval && (d.lastKa == c.lastKa || d.lastKa == now)
            && d.status == c.status && BeforeRecv(c, now).result == Quiet
  {
    hide StartNext, Expiries, KeepaliveDue;
    var l := Lapse(c, now);
    StartNextKeepsTiming(l, now);
    ExpiriesKeepTiming(StartNext(l, now).c, now);
  }

  /** A poll dates the last keepalive now or leaves it, and dates it now when it reports one, an arm or a shot. */
  lemma PollTiming(c: Client, tick: Tick)
    requires WF(c)
    ensures Dated(c, Poll(c, tick), tick.now)
  {
    hide BeforeRecv, Deliver, WF, Overdue, KeepaliveActive;
    if !(Overdue(c, tick.now) && !KeepaliveActive(c)) {
      BeforeRecvKeepsWF(c, tick.now);
      BeforeRecvTiming(c, tick.now);
      if tick.env.Some? { DeliverTiming(BeforeRecv(c, tick.now).c, tick.env.value, tick.now); }
    }
  }

  /** No keepalive queued or in flight. */
  predicate NoKeepalive(c: Client) { Keepalives(c) == 0 && !c.kaQueued }

  lemma NotDueBeforeRecv(c: Client, now: nat)
    requires NoKeepalive(c) && (Overdue(c, now) ==> KeepaliveActive(c))
    requires now < c.lastKa + c.kaInterval && c.kaInterval > 0
    ensures var d := BeforeRecv(c, now).c; NoKeepalive(d) && d.lastKa == c.lastKa && d.kaInterval == c.kaInterval
  {
    hide StartNext, Queued, Expire, S.ShotExpire;
    StartNextCounts(c, now);
    StartNextKeepsTiming(c, now);
  }

  lemma NotDuePoll(c: Client, tick: Tick)
    requires WF(c) && NoKeepalive(c) && tick.now < c.lastKa + c.kaInterval && c.kaInterval > 0
    ensures NoKeepalive(Poll(c, tick).c)
  {
    hide BeforeRecv, Deliver, WF, Overdue, KeepaliveActive, Keepalives, Queued, DetectsShot;
    if !(Overdue(c, tick.now) && !KeepaliveActive(c)) {
      BeforeRecvKeepsWF(c, tick.now);
      NotDueBeforeRecv(c, tick.now);
      if tick.env.Some? {
        var d := BeforeRecv(c, tick.now).c;
        DeliverCounts(d, tick.env.value, tick.now);
        DeliverTiming(d, tick.env.value, tick.now);
        KeepalivesCover(d);
      }
    }
  }

  lemma KeepalivesCover(c: Client)
    ensures Keepalives(c) >= Queued(c.queue)
  {}

  /** The client after further inputs. */
  function Later(c: Client, inputs: seq<UserInput>): (d: Client)
    requires WF(c)
    ensures WF(d)
    decreases |inputs|
  {
    if inputs == [] then c else Later(Do(History(c, [], [], [], []), inputs[0]).c, inputs[1..])
  }

  /** Every poll comes within the interval from `since` on, and the interval is not changed. */
  predicate Within(inputs: seq<UserInput>, since: nat, interval: nat) {
    forall i | 0 <= i < |inputs| ::
      && !inputs[i].SetKeepaliveInterval?
      && (inputs[i].PollAt? ==> since <= inputs[i].tick.now < since + interval)
  }

  /**
   * From a client without a keepalive whose interval began at `since` or later: whatever is enqueued, and
   * whatever operations, shots and messages follow, none is queued or sent until a whole interval has passed.
   */
  lemma {:induction false} NoneWithinInterval(c: Client, since: nat, inputs: seq<UserInput>)
    requires WF(c) && NoKeepalive(c) && since <= c.lastKa && Within(inputs, since, c.kaInterval)
    ensures NoKeepalive(Later(c, inputs))
    decreases |inputs|
  {
    if inputs != [] {
      InputWithin(c, since, inputs[0]);
      hide WF, Do, NoKeepalive;
      NoneWithinInterval(Do(History(c, [], [], [], []), inputs[0]).c, since, inputs[1..]);
    }
  }

  lemma InputWithin(c: Client, since: nat, i: UserInput)
    requires WF(c) && NoKeepalive(c) && since <= c.lastKa && Within([i], since, c.kaInterval)
    ensures var d := Do(History(c, [], [], [], []), i).c; NoKeepalive(d) && since <= d.lastKa && d.kaInterval == c.kaInterval
  {
    hide WF, Poll, Queued;
    assert [i][0] == i;
    match i
    case Enqueue(op) =>
      QueuedAppend(c.queue, [op]);
      QueuedOne(op);
    case PollAt(tick) =>
      NotDuePoll(c, tick);
      PollTiming(c, tick);
    case _ =>
  }

  /** After a keepalive is reported the next one is a whole interval away. */
  lemma NextNotWithinInterval(c: Client, tick: Tick, inputs: seq<UserInput>)
    requires WF(c) && FlagExact(c) && ShotAnnounced(c, tick) && Finishes(Poll(c, tick).result)
    requires Within(inputs, tick.now, c.kaInterval)
    ensures var d := Poll(c, tick).c; WF(d) && NoKeepalive(d) && NoKeepalive(Later(d, inputs))
  {
    hide Queued;
    PollKeepsWF(c, tick);
    PollTiming(c, tick);
    AnnouncedNeverBreaks(c, tick);
    PollCounts(c, tick);
    NoneWithinInterval(Poll(c, tick).c, tick.now, inputs);
  }

  /**
   * And no longer than that plus one poll: an idle client with keepalives on and no shot announced queues one
   * at the first poll a whole interval after the last, and sends its polls first thing at the next.
   */
  lemma SentWhenDue(c: Client, due: Tick, next: Tick)
    requires WF(c) && c.active.None? && c.queue == [] && c.kaEnabled && !c.kaQueued && !c.shot
    requires due.now >= c.lastKa + c.kaInterval && (due.env.Some? ==> !Processed(due.env.value))
    ensures var sent := PollAll(c, [due, next]).sent;
            && |sent| >= 3
            && sent[..3] == [Send(StatusPoll(false), Dsp), Send(StatusPoll(false), Avr), Send(StatusPoll(true), Pi)]
  {
    DueIsQueued(c, due);
    var d := Poll(c, due).c;
    PollKeepsWF(c, due);
    QueuedIsSent(d, next);
    hide WF, Poll, Processed;
    assert [due, next][1..] == [next] && [next][1..] == [];
    Associative(Poll(d, next).sent, [], []);
  }

  /** What a message does to an idle client, PROCESSED apart. */
  lemma IdleDeliver(c: Client, env: Envelope, now: nat)
    requires WF(c) && c.active.None? && !Processed(env)
    ensures var o := Deliver(c, env, now);
            o.sent == [] && o.c == c.(status := o.c.status, armed := o.c.armed, shot := o.c.shot)
  {
    hide SaysTrigger, SaysProcessed;
  }

  lemma DueIsQueued(c: Client, due: Tick)
    requires WF(c) && c.active.None? && c.queue == [] && c.kaEnabled && !c.kaQueued && !c.shot
    requires due.now >= c.lastKa + c.kaInterval && (due.env.Some? ==> !Processed(due.env.value))
    ensures var o := Poll(c, due); o.sent == [] && o.c.queue == [Keepalive] && o.c.active.None?
  {
    hide Processed, CacheStatus;
    IdleHasNoDeadline(c);
    var b := BeforeRecv(c, due.now);
    assert b == Out(c.(queue := [Keepalive], kaQueued := true), [], [], Quiet);
    if due.env.Some? { IdleDeliver(b.c, due.env.value, due.now); }
  }

  lemma QueuedIsSent(c: Client, next: Tick)
    requires WF(c) && c.active.None? && c.queue == [Keepalive]
    ensures var sent := Poll(c, next).sent;
            && |sent| >= 3
            && sent[..3] == [Send(StatusPoll(false), Dsp), Send(StatusPoll(false), Avr), Send(StatusPoll(true), Pi)]
  {
    IdleHasNoDeadline(c);
    KeepaliveStarts(c, next.now);
    BeforeRecvKeepsWF(c, next.now);
    hide WF, Deliver, StartNext, KeepaliveDue;
    var polls := KEEPALIVE_POLLS;
    assert BeforeRecv(c, next.now).sent == polls + [];
    Associative(polls, [], []);
    if next.env.Some? {
      assert (polls + Deliver(BeforeRecv(c, next.now).c, next.env.value, next.now).sent)[..3] == polls;
    }
  }

  // ---- the status on record --------------------------------------------------------------------

  lemma PollStatus(c: Client, before: Snapshot, ms: seq<Envelope>, tick: Tick)
    requires WF(c) && Shows(c.status, before, ms) && Poll(c, tick).result != TimedOut
    ensures Shows(Poll(c, tick).c.status, before, ms + MessagesIn([tick]))
  {
    hide WF, Shows, Overdue, KeepaliveActive, BeforeRecv, Deliver, CacheStatus;
    BeforeRecvKeepsWF(c, tick.now);
    BeforeRecvTiming(c, tick.now);
    MessageIn(tick);
    Associative(ms, [], []);
    if tick.env.Some? {
      var env := tick.env.value;
      DeliverTiming(BeforeRecv(c, tick.now).c, env, tick.now);
      OneMoreFed(c.status, before, ms, env);
    }
  }

  lemma {:induction false} StatusAfter(c: Client, before: Snapshot, ms: seq<Envelope>, ticks: seq<Tick>)
    requires WF(c) && Shows(c.status, before, ms) && !PollAll(c, ticks).timedOut
    ensures Shows(PollAll(c, ticks).c.status, before, ms + MessagesIn(ticks))
    decreases |ticks|
  {
    hide WF, Poll, Shows;
    Associative(ms, [], []);
    if ticks != [] {
      PollStatus(c, before, ms, ticks[0]);
      PollKeepsWF(c, ticks[0]);
      MessagesInFirst(ticks);
      Associative(ms, MessagesIn([ticks[0]]), MessagesIn(ticks[1..]));
      StatusAfter(Poll(c, ticks[0]).c, before, ms + MessagesIn([ticks[0]]), ticks[1..]);
    }
  }

  /** Whatever the client is doing, the status on record is each node's latest, keepalive or not. */
  lemma StatusIsLatest(c: Client, ticks: seq<Tick>)
    requires WF(c) && !PollAll(c, ticks).timedOut
    ensures Shows(PollAll(c, ticks).c.status, c.status, MessagesIn(ticks))
  {
    StatusAfter(c, c.status, [], ticks);
    Associative(MessagesIn(ticks), [], []);
  }

  // ---- what is handed to the caller unread ---------------------------------------------------

  /**
   * A message reaches the caller as it came exactly when no operation is there to take it (a keepalive takes
   * only its answers) and it is no trigger, no PROCESSED and no early flight result of an announced shot.
   */
  lemma PassedOnExactly(c: Client, env: Envelope, now: nat)
    requires WF(c)
    ensures Deliver(c, env, now).result == Emit(Passed(env)) <==>
              && (c.active.None?
                  || (KeepaliveActive(c) && !IsAnswer(Dsp, env) && !IsAnswer(Avr, env) && !IsAnswer(Pi, env)))
              && !SaysTrigger(env.message) && !Processed(env) && !(c.shot && env.message.FlightResultV1?)
  {
    hide Consume, SaysTrigger, SaysProcessed, CacheStatus, Sound, Finished;
    var c' := c.(status := CacheStatus(c.status, env));
    if Takes(c, env) { NothingPassed(c', env, now); }
  }

  lemma NothingPassed(c: Client, env: Envelope, now: nat)
    requires WF(c) && c.active.Some?
    ensures Consume(c, env, now).result != Emit(Passed(env))
  {
    hide FeedOp, Sound, Finished, StartNext, Opening, Begin;
    FeedKeepsSound(c.active.value, env, now);
  }
}
