/** The shot cycle as the caller of `poll` sees it (src/client.rs over src/seq.rs). */
module ShotRuns {
  import opened Prelude
  import opened Wire
  import opened Protocol
  import opened ClientSpec
  import opened ClientRuns
  import S = ShotSeq

  function Streamed(ds: seq<S.ShotDatum>): seq<Event> {
    if ds == [] then [] else [Datum(ds[0])] + Streamed(ds[1..])
  }

  lemma {:induction false} StreamedAppend(a: seq<S.ShotDatum>, b: seq<S.ShotDatum>)
    ensures Streamed(a + b) == Streamed(a) + Streamed(b)
  {
    if a == [] {
      assert a + b == b;
    } else {
      assert (a + b)[1..] == a[1..] + b;
      StreamedAppend(a[1..], b);
    }
  }

  /** What a completed shot adds to its streamed data. */
  function Completion(r: S.ShotRound): seq<Event> {
    if r.next.step.ShotDone? then [ShotComplete(r.next.data)] else []
  }

  /** The shot is under way and its operation deadline lies after every round. */
  predicate Shooting(c: Client, s: S.ShotState, ticks: seq<Tick>) {
    WF(c) && c.active == Some(InShot(s)) && forall i | 0 <= i < |ticks| :: ticks[i].now < c.deadline.value
  }

  /** Before it reads, a poll of a shot only looks at the drain deadline. */
  lemma ShotBeforeRecv(c: Client, s: S.ShotState, now: nat)
    requires WF(c) && c.active == Some(InShot(s)) && !Overdue(c, now)
    ensures var (b, e) := (BeforeRecv(c, now), S.ShotExpire(s, now));
            && WF(b.c) && b.sent == e.sends && b.result == Quiet
            && b.c.active == Some(InShot(e.next)) && b.c.deadline == c.deadline
  {
    BeforeRecvKeepsWF(c, now);
    hide WF, S.ShotExpire, KeepaliveDue;
    Associative(S.ShotExpire(s, now).sends, [], []);
  }

  /** A message of a shot goes to its sequencer. */
  lemma ShotDeliver(c: Client, s: S.ShotState, env: Envelope, now: nat)
    requires WF(c) && c.active == Some(InShot(s))
    ensures var (o, f) := (Deliver(c, env, now), S.ShotFeed(s, env, now));
            && o.sent == f.sends && o.result != TimedOut
            && EventsOf(o.result) == (if f.next.step.ShotDone? then [ShotComplete(f.next.data)]
                                      else if f.next.pending.Some? then [Datum(f.next.pending.value)] else [])
            && (if f.next.step.ShotDone? then o.c.active.None? && o.c.armed && !o.c.shot
                else o.c.active == Some(InShot(f.next.(pending := None))) && o.c.deadline == c.deadline)
  {
    hide S.ShotFeed, CacheStatus, StartNext;
    Associative(S.ShotFeed(s, env, now).sends, [], []);
  }

  /** One poll of a shot is one round of its sequencer. */
  lemma ShotPoll(c: Client, s: S.ShotState, tick: Tick)
    requires WF(c) && c.active == Some(InShot(s)) && !Overdue(c, tick.now)
    ensures var (o, r) := (Poll(c, tick), S.OnTick(s, tick));
            && o.sent == r.sends && o.result != TimedOut
            && EventsOf(o.result) == Streamed(r.streamed) + Completion(r)
            && (if r.next.step.ShotDone? then o.c.active.None? && o.c.armed && !o.c.shot
                else o.c.active == Some(InShot(r.next)) && o.c.deadline == c.deadline)
  {
    NotDoneYet(c, s, tick);
    ShotBeforeRecv(c, s, tick.now);
    hide WF, S.ShotFeed, S.ShotExpire, BeforeRecv, Deliver, Overdue;
    if tick.env.Some? {
      var e := S.ShotExpire(s, tick.now);
      ShotDeliver(BeforeRecv(c, tick.now).c, e.next, tick.env.value, tick.now);
      var f := S.ShotFeed(e.next, tick.env.value, tick.now);
      if f.next.pending.Some? { assert Streamed([f.next.pending.value])[1..] == []; }
    }
  }

  lemma NotDoneYet(c: Client, s: S.ShotState, tick: Tick)
    requires WF(c) && c.active == Some(InShot(s))
    ensures !S.ShotExpire(s, tick.now).next.step.ShotDone?
  {}

  /** The shot is not complete before the last of these rounds. */
  predicate EndsLast(s: S.ShotState, ticks: seq<Tick>)
    decreases |ticks|
  {
    || |ticks| <= 1
    || (!S.OnTick(s, ticks[0]).next.step.ShotDone? && EndsLast(S.OnTick(s, ticks[0]).next, ticks[1..]))
  }

  /** Polling a shot to its end sends and reports what its sequencer does, and nothing else. */
  lemma {:induction false} ShotPolled(c: Client, s: S.ShotState, ticks: seq<Tick>)
    requires Shooting(c, s, ticks) && WF(c) && EndsLast(s, ticks) && !s.step.ShotDone?
    ensures var (p, r) := (PollAll(c, ticks), S.ShotRun(s, ticks));
            && !p.timedOut && p.sent == r.sends && p.events == Streamed(r.streamed) + Completion(r)
    decreases |ticks|
  {
    hide Poll, WF, S.OnTick, Streamed;
    if ticks == [] {
      NothingStreamed();
    } else {
      var tick := ticks[0];
      ShotPoll(c, s, tick);
      PollKeepsWF(c, tick);
      var first := S.OnTick(s, tick);
      var rest := S.ShotRun(first.next, ticks[1..]);
      StreamedAppend(first.streamed, rest.streamed);
      Associative(first.sends, [], []);
      if first.next.step.ShotDone? {
        assert ticks[1..] == [];
        Associative(first.streamed, [], []);
        Associative(Streamed(first.streamed) + Completion(first), [], []);
      } else {
        ShotPolled(Poll(c, tick).c, first.next, ticks[1..]);
        Associative(Streamed(first.streamed), [], []);
        Associative(Streamed(first.streamed), Streamed(rest.streamed), Completion(rest));
      }
    }
  }

  lemma NothingStreamed()
    ensures Streamed([]) == []
  {}

  /**
   * From PROCESSED on, whatever messages and drain timeouts follow: polling reports exactly the drained
   * flight, club and spin results, in order, and on completion what the drained messages bring: every radar
   * page of each kind in order, the last speed profile, and the last flight, club and spin result, which are
   * also the last ones reported. The shot completes exactly when the signs needed after the drain come in
   * order, and has then sent, after its two acknowledgements, the result request if IDLE ended the drain, and
   * the arm command.
   */
  lemma ShotDelivered(c: Client, ticks: seq<Tick>)
    requires Shooting(c, S.BEGIN, ticks) && WF(c) && EndsLast(S.BEGIN, ticks)
    ensures var (p, ms) := (PollAll(c, ticks), S.Drained(ticks, None));
            var data := S.CollectAll(S.NO_DATA, ms);
            var completed := S.Completes(ticks, None);
            && !p.timedOut
            && p.events == Streamed(S.Datums(ms)) + (if completed then [ShotComplete(data)] else [])
            && S.Matches(data, S.Datums(ms)) && S.Gathers(data, ms)
            && (completed ==> p.sent == S.CompletedSends(S.EndOfDrain(ticks, None)))
  {
    ShotPolled(c, S.BEGIN, ticks);
    S.ShotCycle(ticks);
    S.ShotCompletesExactly(ticks);
    S.CompletedRunSends(ticks);
    hide S.EndOfDrain, S.Gathers, S.CompletedSends, S.Completes, S.ShotRun, S.Drained, S.CollectAll, S.Datums, S.Matches;
    hide Streamed, PollAll, WF;
  }
}
