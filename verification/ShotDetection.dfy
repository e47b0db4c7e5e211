/**
 * When `poll` of src/client.rs notices a shot, and what a shot it does not notice does to keepalives.
 */
module ShotDetection {
  import opened Prelude
  import opened Wire
  import opened Protocol
  import opened Script
  import opened ClientSpec
  import opened ClientRuns
  import C = ConfigSeq
  import R = ArmSeq
  import S = ShotSeq

  /** PROCESSED as `poll` tells it: a text that also says the trigger is taken for the trigger. */
  predicate Processed(env: Envelope) { SaysProcessed(env.message) && !SaysTrigger(env.message) }

  // ---- one message -----------------------------------------------------------------------

  /** A shot text that reaches a handshake, a configuration, a disarm or an arm is swallowed without trace. */
  lemma ShotTextSwallowed(c: Client, env: Envelope, now: nat)
    requires WF(c) && c.active.Some? && !c.active.value.KeepingAlive? && !c.active.value.InShot?
    requires env.message.ShotText?
    ensures Deliver(c, env, now) == Out(c, [], [], Quiet)
  {
    hide Complete, Good, SaysArmed, SaysTrigger, SaysProcessed, Contains;
    hide C.DisarmScript, C.AvrConfigScript, C.CamScript;
    var a := c.active.value;
    if a.Arming? {
      assert !SaysArmed(env.message) by { NotArmedText(env.message); }
    } else {
      NeverAccepted(a.p, env, now);
    }
  }

  /** The texts told apart: a cancelled arm is not armed, and IDLE is none of the others. */
  lemma TextsTold()
    ensures SaysArmed(Text("ARMED")) && !SaysArmed(Text("ARMED CANCELLED"))
    ensures SaysIdle(ShotText("IDLE")) && !SaysProcessed(ShotText("IDLE"))
  {
    ArmedText();
    assert OccursAt("ARMED CANCELLED", "CANCELLED", 6);
    assert OccursAt("IDLE", "IDLE", 0);
    assert |"IDLE"| == 4 && |"PROCESSED"| == 9;
  }

  lemma NotArmedText(m: Message)
    requires m.ShotText?
    ensures !SaysArmed(m)
  {}

  lemma NeverAccepted(p: Progress, env: Envelope, now: nat)
    requires env.message.ShotText?
    ensures Feed(p, env, now) == Step(p, [])
  {}

  /** PROCESSED starts the shot cycle exactly when no operation is active, or only a keepalive. */
  lemma ProcessedStartsShotExactly(c: Client, env: Envelope, now: nat)
    requires WF(c) && Processed(env)
    ensures var o := Deliver(c, env, now);
            && (o.sent == [Send(ShotDataAck, Avr), Send(ShotDataAck, Avr)] <==> c.active.None? || KeepaliveActive(c))
            && (o.sent == [Send(ShotDataAck, Avr), Send(ShotDataAck, Avr)] ==>
                  o.c.active == Some(InShot(S.BEGIN)) && o.c.deadline == Some(now + c.opTimeout))
  {
    hide Sound, Finished, Contains, FeedScripted, R.ArmFeed;
    if c.active.Some? && !KeepaliveActive(c) && !c.active.value.InShot? {
      ShotTextSwallowed(c, env, now);
      hide Deliver;
    }
  }

  /** The trigger is noticed under the same condition, and only then are keepalives held up for the shot. */
  lemma TriggerNoticedExactly(c: Client, env: Envelope, now: nat)
    requires WF(c) && SaysTrigger(env.message)
    ensures var o := Deliver(c, env, now);
            && (o.result == Emit(Trigger) <==> c.active.None? || KeepaliveActive(c))
            && (o.result == Emit(Trigger) ==> o.c.shot && !o.c.armed)
  {
    hide Sound, Finished, Contains, FeedScripted, R.ArmFeed;
    if c.active.Some? && !KeepaliveActive(c) && !c.active.value.InShot? {
      ShotTextSwallowed(c, env, now);
      hide Deliver;
    }
  }

  // ---- one poll --------------------------------------------------------------------------

  /** Nothing but keepalives is active, or is next to start. */
  predicate Free(c: Client, now: nat) {
    var l := Lapse(c, now);
    if l.active.None? then l.queue == [] || l.queue[0].Keepalive? else KeepaliveActive(l)
  }

  lemma FreeAfterStart(c: Client, now: nat)
    requires WF(c) && (Overdue(c, now) ==> KeepaliveActive(c))
    ensures var d := BeforeRecv(c, now).c; Free(c, now) <==> d.active.None? || KeepaliveActive(d)
  {
    hide WF, StartNext, Expire, S.ShotExpire, KeepaliveDue, Overdue;
    StartedKind(Lapse(c, now), now);
  }

  lemma StartedKind(c: Client, now: nat)
    ensures var d := StartNext(c, now).c;
            && (c.active.Some? ==> d.active == c.active)
            && (c.active.None? ==> (d.active.Some? <==> c.queue != []))
            && (c.active.None? && c.queue != [] ==> (KeepaliveActive(d) <==> c.queue[0].Keepalive?))
  {
    hide Opening, Begin;
  }

  /** What a caller can tell before a poll: a PROCESSED it receives starts the shot cycle exactly if the client is free. */
  lemma PollStartsShotExactly(c: Client, tick: Tick)
    requires WF(c) && (Overdue(c, tick.now) ==> KeepaliveActive(c))
    requires tick.env.Some? && Processed(tick.env.value)
    ensures Poll(c, tick).sent == BeforeRecv(c, tick.now).sent + [Send(ShotDataAck, Avr), Send(ShotDataAck, Avr)]
            <==> Free(c, tick.now)
  {
    BeforeRecvKeepsWF(c, tick.now);
    FreeAfterStart(c, tick.now);
    var b := BeforeRecv(c, tick.now);
    ProcessedStartsShotExactly(b.c, tick.env.value, tick.now);
    hide WF, BeforeRecv, Deliver, Free, Overdue, KeepaliveActive, Processed;
    var sent := Deliver(b.c, tick.env.value, tick.now).sent;
    assert Poll(c, tick).sent == b.sent + sent;
    var acks := [Send(ShotDataAck, Avr), Send(ShotDataAck, Avr)];
    assert (b.sent + sent)[|b.sent|..] == sent && (b.sent + acks)[|b.sent|..] == acks;
  }

  // ---- keepalives while a shot is announced ------------------------------------------------

  predicate NoneProcessed(ticks: seq<Tick>) {
    forall i | 0 <= i < |ticks| :: ticks[i].env.Some? ==> !Processed(ticks[i].env.value)
  }

  /** Idle with a shot announced: whatever else arrives, and however long it takes, no keepalive is sent. */
  lemma {:induction false} ShotHoldsKeepalivesUp(c: Client, ticks: seq<Tick>)
    requires WF(c) && c.active.None? && c.queue == [] && c.shot && NoneProcessed(ticks)
    ensures var p := PollAll(c, ticks);
            && p.sent == [] && !p.timedOut && p.c.active.None? && p.c.queue == [] && p.c.shot && p.c.kaQueued == c.kaQueued
    decreases |ticks|
  {
    hide WF, Processed;
    if ticks != [] {
      var t, rest := ticks[0], ticks[1..];
      assert c.deadline.None? by { IdleHasNoDeadline(c); }
      assert BeforeRecv(c, t.now) == Out(c, [], [], Quiet);
      PollKeepsWF(c, t);
      if t.env.Some? { NotProcessed(c, t.env.value, t.now); }
      hide Deliver, BeforeRecv;
      assert NoneProcessed(rest) by {
        forall i | 0 <= i < |rest| && rest[i].env.Some? ensures !Processed(rest[i].env.value) {
          assert rest[i] == ticks[i + 1];
        }
      }
      ShotHoldsKeepalivesUp(Poll(c, t).c, rest);
    }
  }

  lemma IdleHasNoDeadline(c: Client)
    requires WF(c) && c.active.None?
    ensures c.deadline.None?
  {}

  lemma NotProcessed(c: Client, env: Envelope, now: nat)
    requires WF(c) && c.active.None? && c.shot && !Processed(env)
    ensures var o := Deliver(c, env, now);
            && o.sent == [] && o.result != TimedOut
            && o.c == c.(status := o.c.status, armed := o.c.armed)
  {
    hide SaysTrigger, SaysProcessed;
  }

  // ---- a run in which the shot is missed ---------------------------------------------------

  lemma TriggerText()
    ensures SaysTrigger(ShotText("BALL TRIGGER"))
  {
    assert OccursAt("BALL TRIGGER", "BALL TRIGGER", 0);
  }

  lemma ProcessedText()
    ensures Processed(Envelope(Avr, ShotText("PROCESSED")))
  {
    assert OccursAt("PROCESSED", "PROCESSED", 0);
    NoTrigger(ShotText("PROCESSED"));
  }

  /** PROCESSED in the middle of a camera configuration, between two of its replies. */
  function CameraMessages(): seq<Envelope> {
    [Envelope(Pi, ConfigAck([])), Envelope(Avr, ShotText("PROCESSED")), Envelope(Pi, CamConfig([])),
     Envelope(Pi, ConfigAck([])), Envelope(Pi, ConfigAck([]))]
  }

  /** How many replies the configuration has had before message k. */
  function RepliesBefore(k: nat): nat { if k < 2 then k else k - 1 }

  lemma NotStatus(s: Snapshot, env: Envelope)
    requires !IsStatusReply(env)
    ensures CacheStatus(s, env) == s
  {}

  lemma CameraPoll(c: Client, p: Progress, tick: Tick)
    requires WF(c) && c.active == Some(ConfiguringCam(p, [])) && c.shot && !Overdue(c, tick.now)
    requires tick.env.Some? && !IsStatusReply(tick.env.value)
    ensures var next := Feed(p, tick.env.value, tick.now).next;
            Poll(c, tick).c == if Complete(next) then c.(active := None, deadline := None)
                               else c.(active := Some(ConfiguringCam(next, [])))
  {
    hide WF, Feed, Complete, IsStatusReply, CacheStatus;
    BeforeRecvKeepsWF(c, tick.now);
    assert BeforeRecv(c, tick.now).c == c;
    NotStatus(c.status, tick.env.value);
  }

  lemma CameraStep(p: Progress, k: nat)
    requires k < 5 && Follows(p, C.CamScript([])) && |p.replies| == RepliesBefore(k)
    ensures var next := Feed(p, CameraMessages()[k], 0).next;
            Follows(next, C.CamScript([])) && |next.replies| == RepliesBefore(k + 1) && (Complete(next) <==> k == 4)
    ensures !IsStatusReply(CameraMessages()[k])
  {
    FeedKeepsGood(p, CameraMessages()[k], 0);
    hide Good;
  }

  lemma IdleTrigger(c: Client, tick: Tick)
    requires WF(c) && c.active.None? && c.queue == [] && !KeepaliveDue(c, tick.now)
    requires tick.env == Some(Envelope(Avr, ShotText("BALL TRIGGER")))
    ensures Poll(c, tick).c == c.(shot := true, armed := false)
  {
    hide WF, SaysTrigger, KeepaliveDue;
    TriggerText();
    IdleHasNoDeadline(c);
    assert BeforeRecv(c, tick.now) == Out(c, [], [], Quiet);
  }

  lemma CameraStarts(c: Client, tick: Tick)
    requires WF(c) && c.active.None? && c.queue == [ConfigureCam([])] && c.shot && tick.env.None?
    ensures Poll(c, tick).c == c.(queue := [], active := Some(ConfiguringCam(Begin(C.CamScript([])), [])),
                                 deadline := Some(tick.now + c.opTimeout))
  {
    IdleHasNoDeadline(c);
    hide WF, Opening, Begin, C.CamScript;
  }

  lemma ShotTextSwallowedInPoll(c: Client, p: Progress, tick: Tick)
    requires WF(c) && c.active == Some(ConfiguringCam(p, [])) && c.shot && !Overdue(c, tick.now)
    requires tick.env.Some? && tick.env.value.message.ShotText?
    ensures Poll(c, tick).c == c
  {
    ShotTextSwallowed(c, tick.env.value, tick.now);
    hide WF, Deliver;
    BeforeRecvKeepsWF(c, tick.now);
    assert BeforeRecv(c, tick.now).c == c;
  }

  /** The poll at index `at` received PROCESSED in the middle of a camera configuration, the trigger already noticed. */
  predicate MissesShot(inputs: seq<UserInput>, at: nat) {
    && at < |inputs| && inputs[at].PollAt? && inputs[at].tick.env.Some? && Processed(inputs[at].tick.env.value)
    && var d := Exec(0, inputs[..at]).c; d.shot && d.active.Some? && d.active.value.ConfiguringCam?
  }

  /** No trigger is received from index `at` on. */
  predicate NoTriggerSince(inputs: seq<UserInput>, at: nat) {
    forall i | at <= i < |inputs| :: inputs[i].PollAt? && inputs[i].tick.env.Some?
                                     && !SaysTrigger(inputs[i].tick.env.value.message)
  }

  /**
   * A reachable client whose keepalives a missed shot holds up: armed, triggered, and busy configuring the
   * camera when PROCESSED came, which changed nothing. The configuration completes, no further trigger comes,
   * the shot never completes, and however long the client is then polled it sends no keepalive until another
   * PROCESSED comes.
   */
  lemma MissedShotHoldsKeepalivesUp() returns (inputs: seq<UserInput>, at: nat)
    ensures MissesShot(inputs, at) && NoTriggerSince(inputs, at)
    ensures Exec(0, inputs[..at + 1]).c == Exec(0, inputs[..at]).c
    ensures var c := Exec(0, inputs).c;
            && c.active.None? && c.queue == [] && c.kaEnabled && !c.kaQueued && c.shot
            && forall ticks | NoneProcessed(ticks) :: PollAll(c, ticks).sent == []
  {
    hide Poll, WF, Feed, Complete, Good, SaysTrigger, SaysProcessed, Exec, Processed;
    inputs := ArmedRun();
    var trigger := Tick(0, Some(Envelope(Avr, ShotText("BALL TRIGGER"))));
    IdleTrigger(Exec(0, inputs).c, trigger);
    inputs := Then(0, inputs, PollAt(trigger));
    assert [] + [ConfigureCam([])] == [ConfigureCam([])];
    inputs := Then(0, inputs, Enqueue(ConfigureCam([])));
    CameraStarts(Exec(0, inputs).c, Tick(0, None));
    inputs := Then(0, inputs, PollAt(Tick(0, None)));
    var ms := CameraMessages();
    var p := Begin(C.CamScript([]));
    assert Follows(p, C.CamScript([])) by { BeginFollows(C.CamScript([])); }
    ProcessedText();
    at := |inputs| + 1;
    for k := 0 to 5
      invariant ms == CameraMessages() && Follows(p, C.CamScript([])) && |p.replies| == RepliesBefore(k)
      invariant |inputs| == at - 1 + k
      invariant var c := Exec(0, inputs).c;
                && c.queue == [] && c.kaEnabled && !c.kaQueued && c.shot
                && (if k < 5 then c.active == Some(ConfiguringCam(p, [])) && c.deadline == Some(DEFAULT_OP_TIMEOUT)
                    else c.active.None?)
      invariant forall i | at <= i < |inputs| :: inputs[i] == PollAt(Tick(0, Some(ms[i - at + 1])))
      invariant k >= 1 ==> var d := Exec(0, inputs[..at]).c; d.shot && d.active.Some? && d.active.value.ConfiguringCam?
      invariant k >= 2 ==> Exec(0, inputs[..at + 1]).c == Exec(0, inputs[..at]).c
    {
      var tick := Tick(0, Some(ms[k]));
      CameraStep(p, k);
      CameraPoll(Exec(0, inputs).c, p, tick);
      var before := inputs;
      inputs := Then(0, inputs, PollAt(tick));
      assert inputs[..|before|] == before && inputs[..|inputs|] == inputs;
      assert k >= 1 ==> inputs[..at] == before[..at];
      assert k >= 2 ==> inputs[..at + 1] == before[..at + 1];
      assert k == 1 ==> before[..at] == before;
      if k == 1 {
        ShotTextSwallowedInPoll(Exec(0, before).c, p, tick);
      }
      p := Feed(p, ms[k], 0).next;
    }
    assert inputs[..|inputs|] == inputs;
    forall i | at <= i < |inputs| ensures !SaysTrigger(inputs[i].tick.env.value.message) { NoCameraTrigger(i - at + 1); }
    var c := Exec(0, inputs).c;
    forall ticks | NoneProcessed(ticks) ensures PollAll(c, ticks).sent == [] { ShotHoldsKeepalivesUp(c, ticks); }
  }

  lemma NoCameraTrigger(k: nat)
    requires k < 5
    ensures !SaysTrigger(CameraMessages()[k].message)
  {
    ProcessedText();
  }

  /** One more input. */
  lemma Then(start: nat, inputs: seq<UserInput>, i: UserInput) returns (longer: seq<UserInput>)
    ensures longer == inputs + [i]
    ensures Exec(start, longer) == Do(Exec(start, inputs), i)
  {
    ExecOneMore(start, inputs, i);
    longer := inputs + [i];
  }
}
