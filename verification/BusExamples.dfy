/** Runs of the protocol, from its initial state, in which a property that the code seems to
    promise fails: one sender, one request, a table of any size. */
module BusExamples {
  import opened Wrappers
  import opened RxTable
  import opened BusProtocol
  import opened BusAssertions
  import opened BusErrors

  lemma ExecOne(s: System, a: Move)
    ensures Exec(s, [a]) == Do(s, a)
  {
    hide Do;
    assert [a][..0] == [] && Exec(s, []) == s;
  }

  lemma ExecThree(s: System, a: Move, b: Move, c: Move)
    ensures Exec(s, [a, b, c]) == Do(Do(Do(s, a), b), c)
  {
    hide Do;
    assert [a, b, c][..2] == [a, b] && [a, b][..1] == [a];
    ExecOne(s, a);
    assert Exec(s, [a, b]) == Do(Exec(s, [a]), b);
  }

  // ---------------------------------------------------------------------------
  // The parts the runs are made of

  /** The first entry is e, and no other is in use. */
  ghost predicate Only(t: seq<RxInfo>, e: RxInfo) {
    |t| >= 1 && t[0] == e && forall j | 1 <= j < |t| :: t[j].Inactive?
  }

  /** Nothing has come out yet. */
  predicate Quiet(s: System) { !s.crashed && s.pool == [] && s.called == [] && s.dropped == [] }

  function FreshBox(fd: int, seqId: int, timeout: int): Box { Box(0, fd, seqId, timeout, Undefined, None) }

  /** The box once its bytes are out. */
  function SentBox(fd: int, seqId: int, timeout: int): Box { Box(0, fd, seqId, timeout, RequestComplete, None) }

  const SEND := [HoldDone(0), Sent(0), QueueExpect(0)]

  function HoldMoves(fd: int, seqId: int, timeout: int): seq<Move> {
    [Start(0, fd, seqId, timeout), QueueHold(0), Handle(0, true)]
  }

  lemma StartedRequest(entries: nat, fd: int, seqId: int, timeout: int)
    requires entries >= 1 && 1 <= timeout < 0x1_0000
    ensures var t := Do(Do(Init(1, entries), Start(0, fd, seqId, timeout)), QueueHold(0));
            && Quiet(t) && Only(t.table, RELEASED) && t.senders == [Holding(FreshBox(fd, seqId, timeout), false)]
            && t.queue == [HoldCmd(Key(fd, seqId), HoldTimeout(timeout), 0, 0)]
  {
    hide HandleNext, Receive, TickOne, ErrorTable, HoldTimeout;
    var s := Init(1, entries);
    assert s.senders == [Idle];
    var s1 := Do(s, Start(0, fd, seqId, timeout));
    assert s1.senders == [Boxed(FreshBox(fd, seqId, timeout))];
  }

  lemma PlacedRequest(s: System, b: Box, h: int)
    requires Quiet(s) && Only(s.table, RELEASED) && s.senders == [Holding(b, false)]
    requires s.queue == [HoldCmd(KeyOf(b), h, 0, b.id)]
    ensures var t := Do(s, Handle(0, true));
            && Quiet(t) && t.queue == [] && Only(t.table, Hold(b.fd, b.seqId, h, None, NoError))
            && t.senders == [Holding(b, true)]
  {
    var u := PlaceHold(s.(queue := []), s.queue[0], 0);
    assert Only(u.table, Hold(b.fd, b.seqId, h, None, NoError));
    assert s.queue[1..] == [];
    assert HandleNext(s, 0, true) == Acknowledge(u, s.queue[0]);
  }

  /** A request is boxed and held. */
  lemma HeldRequest(entries: nat, fd: int, seqId: int, timeout: int)
    requires entries >= 1 && 1 <= timeout < 0x1_0000
    ensures var s := Exec(Init(1, entries), HoldMoves(fd, seqId, timeout));
            && Quiet(s) && s.queue == [] && Only(s.table, Hold(fd, seqId, HoldTimeout(timeout), None, NoError))
            && s.senders == [Holding(FreshBox(fd, seqId, timeout), true)]
  {
    hide Do, Init, Quiet, Only, HoldTimeout;
    var s0, start := Init(1, entries), Start(0, fd, seqId, timeout);
    ExecThree(s0, start, QueueHold(0), Handle(0, true));
    StartedRequest(entries, fd, seqId, timeout);
    PlacedRequest(Do(Do(s0, start), QueueHold(0)), FreshBox(fd, seqId, timeout), HoldTimeout(timeout));
  }

  /** It is sent, and its EXPECT queued. */
  lemma SentRequest(s: System, b: Box)
    requires Quiet(s) && s.queue == [] && s.senders == [Holding(b, true)]
    ensures var t := Exec(s, SEND);
            Quiet(t) && t.table == s.table && t.queue == [ExpectCmd(b.(status := RequestComplete))]
  {
    hide HandleNext, Receive, TickOne, ErrorTable, Monotonic;
    ExecThree(s, HoldDone(0), Sent(0), QueueExpect(0));
    hide Exec;
    var s1 := Do(s, HoldDone(0));
    assert s1.senders == [Writing(b)];
    var s2 := Do(s1, Sent(0));
    assert s2.senders == [Expecting(b.(status := RequestComplete))];
  }

  // ---------------------------------------------------------------------------
  // A violated assertion

  lemma ExpectedRequest(s: System, b: Box, h: int)
    requires Quiet(s) && Only(s.table, Hold(b.fd, b.seqId, h, None, NoError)) && s.queue == [ExpectCmd(b)]
    ensures var t := Do(s, Handle(0, true)); Quiet(t) && Only(t.table, Expect(b, NoError, None, b.timeout))
  {
    assert Matches(s.table[0], b.fd, b.seqId);
    assert HandleNext(s, 0, true) == HandleExpect(s.(queue := s.queue[1..]), b, true);
  }

  lemma RefusedTimeout(s: System, b: Box)
    requires Quiet(s) && Only(s.table, Expect(b, NoError, None, 1))
    ensures var t := Do(s, TickEntry(0, Oracle(false, true)));
            Quiet(t) && Only(t.table, Expect(b.(status := RxTimeout), NoError, None, 1))
  {
  }

  lemma RefusedResponse(s: System, b: Box, msg: Msg)
    requires Quiet(s) && Only(s.table, Expect(b, NoError, None, 1)) && b.status == RxTimeout
    requires msg.fd == b.fd && msg.seqId == b.seqId
    ensures var t := Do(s, Respond(msg, false)); Quiet(t) && |t.table| >= 1 && Doomed(t.table[0])
  {
    assert Matches(s.table[0], b.fd, b.seqId);
    assert Find(s.table, b.fd, b.seqId) == Some(0);
  }

  /** The EXPECT is handled; the timeout and then the response are refused. */
  lemma RefusedTwice(s: System, b: Box, h: int, msg: Msg)
    requires Quiet(s) && Only(s.table, Hold(b.fd, b.seqId, h, None, NoError)) && s.queue == [ExpectCmd(b)]
    requires b.timeout == 1 && msg.fd == b.fd && msg.seqId == b.seqId
    ensures var t := Exec(s, [Handle(0, true), TickEntry(0, Oracle(false, true)), Respond(msg, false)]);
            Quiet(t) && |t.table| >= 1 && Doomed(t.table[0])
  {
    hide Do, Quiet, Only;
    ExecThree(s, Handle(0, true), TickEntry(0, Oracle(false, true)), Respond(msg, false));
    ExpectedRequest(s, b, h);
    var s1 := Do(s, Handle(0, true));
    RefusedTimeout(s1, b);
    RefusedResponse(Do(s1, TickEntry(0, Oracle(false, true))), b.(status := RxTimeout), msg);
  }

  /** One request that times out after a second: the listener has its EXPECT, the threadpool
      refuses the timeout, then the response. */
  function DoomingRun(fd: int, seqId: int, body: int): seq<Move> {
    HoldMoves(fd, seqId, 1) + SEND
    + [Handle(0, true), TickEntry(0, Oracle(false, true)), Respond(Msg(fd, seqId, body), false)]
  }

  /** After that run nothing has failed yet, and the next tick, whatever the threadpool answers
      then, violates the assertion on line 255 of listener_task.c. */
  lemma AssertionFailsExample(entries: nat, fd: int, seqId: int, body: int, o: Oracle)
    requires entries >= 1
    ensures var run, s0 := DoomingRun(fd, seqId, body), Init(1, entries);
            !Exec(s0, run).crashed && Exec(s0, run + [TickEntry(0, o)]).crashed
  {
    hide Do, Inv, Exec, Only, HoldTimeout;
    var run, s0, hold := DoomingRun(fd, seqId, body), Init(1, entries), HoldMoves(fd, seqId, 1);
    var msg := Msg(fd, seqId, body);
    HeldRequest(entries, fd, seqId, 1);
    SentRequest(Exec(s0, hold), FreshBox(fd, seqId, 1));
    RefusedTwice(Exec(Exec(s0, hold), SEND), SentBox(fd, seqId, 1), HoldTimeout(1), msg);
    ExecAppend(s0, hold, SEND);
    ExecAppend(s0, hold + SEND, [Handle(0, true), TickEntry(0, Oracle(false, true)), Respond(msg, false)]);
    RunKeepsInv(1, entries, run);
    StepCrashesIff(Exec(s0, run), TickEntry(0, o));
    ExecAppend(s0, run, [TickEntry(0, o)]);
    ExecOne(Exec(s0, run), TickEntry(0, o));
  }

  // ---------------------------------------------------------------------------
  // A dropped request

  /** h ticks of the first entry with a working clock. */
  function TickMoves(h: nat): seq<Move> { seq(h, _ => TickEntry(0, Oracle(true, true))) }

  lemma {:induction false} HoldTicksAway(s: System, fd: int, seqId: int, h: nat)
    requires Quiet(s) && h >= 1 && Only(s.table, Hold(fd, seqId, h, None, NoError))
    ensures var t := Exec(s, TickMoves(h));
            Quiet(t) && Only(t.table, RELEASED) && t.queue == s.queue && t.senders == s.senders
    decreases h
  {
    var tick := TickEntry(0, Oracle(true, true));
    assert TickMoves(h) == [tick] + TickMoves(h - 1);
    ExecAppend(s, [tick], TickMoves(h - 1));
    ExecOne(s, tick);
    var s1 := Do(s, tick);
    if h == 1 {
      assert Only(s1.table, RELEASED);
      assert Exec(s1, TickMoves(0)) == s1;
    } else {
      assert Only(s1.table, Hold(fd, seqId, h - 1, None, NoError));
      HoldTicksAway(s1, fd, seqId, h - 1);
    }
  }

  lemma DroppedRequest(s: System, b: Box)
    requires Quiet(s) && Only(s.table, RELEASED) && s.queue == [ExpectCmd(b)]
    ensures var t := Do(s, Handle(0, true)); !t.crashed && t.pool == [] && t.called == [] && t.dropped == [b]
  {
    assert Find(s.table, b.fd, b.seqId).None?;
    assert HandleNext(s, 0, true) == HandleExpect(s.(queue := s.queue[1..]), b, true);
  }

  /** The HOLD times out while the request is still being sent. */
  function DroppingRun(fd: int, seqId: int, timeout: int): seq<Move>
    requires HoldTimeout(timeout) >= 1
  {
    HoldMoves(fd, seqId, timeout) + TickMoves(HoldTimeout(timeout)) + SEND + [Handle(0, true)]
  }

  /** The dropped EXPECT is reachable: after as many ticks as the HOLD has, the box of a request
      that was sent completely is lost, and its callback never comes. For a request timeout of
      65532 seconds or more that takes at most four ticks. */
  lemma ExpiredHoldDropsRequest(entries: nat, fd: int, seqId: int, timeout: int)
    requires entries >= 1 && 1 <= timeout < 0x1_0000 && HoldTimeout(timeout) >= 1
    ensures var s := Exec(Init(1, entries), DroppingRun(fd, seqId, timeout));
            && s.dropped == [SentBox(fd, seqId, timeout)] && s.pool == [] && s.called == [] && !s.crashed
            && Key(fd, seqId) in s.lost
            && |DroppingRun(fd, seqId, timeout)| == 7 + HoldTimeout(timeout)
            && (timeout >= 65532 ==> HoldTimeout(timeout) <= 4)
  {
    hide Do, Exec, Only, Quiet, HoldTimeout, Inv;
    var s0, hold, ticks := Init(1, entries), HoldMoves(fd, seqId, timeout), TickMoves(HoldTimeout(timeout));
    HeldRequest(entries, fd, seqId, timeout);
    var s1 := Exec(s0, hold);
    HoldTicksAway(s1, fd, seqId, HoldTimeout(timeout));
    ExecAppend(s0, hold, ticks);
    var s2 := Exec(s0, hold + ticks);
    SentRequest(s2, FreshBox(fd, seqId, timeout));
    ExecAppend(s0, hold + ticks, SEND);
    var s3 := Exec(s0, hold + ticks + SEND);
    DroppedRequest(s3, SentBox(fd, seqId, timeout));
    ExecAppend(s0, hold + ticks + SEND, [Handle(0, true)]);
    ExecOne(s3, Handle(0, true));
    QuietMeansEmpty(s3);
    ExpectMeetsHold(1, entries, hold + ticks + SEND, 0, true);
    LostStays(s3, Handle(0, true));
    HoldTimeoutRange(timeout);
  }

  lemma QuietMeansEmpty(s: System)
    requires Quiet(s)
    ensures !s.crashed && s.pool == [] && s.called == [] && s.dropped == []
  {
  }

  lemma LostStays(s: System, m: Move)
    ensures s.lost <= Do(s, m).lost
  {
  }

  // ---------------------------------------------------------------------------
  // A request failed by another socket

  lemma MarkedRequest(s: System, b: Box, h: int, other: int)
    requires Quiet(s) && Only(s.table, Hold(b.fd, b.seqId, h, None, NoError))
    ensures var t := Do(s, SocketError(other, PollHup));
            && Quiet(t) && Only(t.table, Hold(b.fd, b.seqId, h, None, PollHup))
            && t.queue == s.queue && t.senders == s.senders && KeyOf(b) in HeldKeys(s.table)
  {
    assert KeyOn(s.table[0]) == KeyOf(b);
  }

  lemma AnsweredRequest(s: System, b: Box, h: int, msg: Msg)
    requires Quiet(s) && Only(s.table, Hold(b.fd, b.seqId, h, None, PollHup)) && s.queue == [ExpectCmd(b)]
    requires msg.fd == b.fd && msg.seqId == b.seqId
    ensures var t := Do(s, Respond(msg, true));
            && Quiet(t) && Only(t.table, Hold(b.fd, b.seqId, h, Some(msg), PollHup)) && t.queue == s.queue
            && msg in t.log.arrived
  {
    assert Matches(s.table[0], b.fd, b.seqId);
    assert Find(s.table, b.fd, b.seqId) == Some(0);
  }

  lemma FailedRequest(s: System, b: Box, h: int, msg: Msg)
    requires Quiet(s) && Only(s.table, Hold(b.fd, b.seqId, h, Some(msg), PollHup)) && s.queue == [ExpectCmd(b)]
    ensures var t := Do(s, Handle(0, true));
            !t.crashed && t.pool == [b.(status := RxFailure)] && t.called == [] && t.log == s.log
  {
    assert Matches(s.table[0], b.fd, b.seqId);
    assert HandleNext(s, 0, true) == HandleExpect(s.(queue := s.queue[1..]), b, true);
  }

  lemma CalledBack(s: System, b: Box)
    requires !s.crashed && s.pool == [b] && s.called == []
    ensures Do(s, Execute(0)).called == [b] && Do(s, Execute(0)).log == s.log
  {
  }

  /** Another socket hangs up while the request is being sent; the response arrives in time. */
  function ForeignErrorRun(fd: int, seqId: int, timeout: int, other: int, body: int): seq<Move> {
    HoldMoves(fd, seqId, timeout) + [SocketError(other, PollHup)] + SEND
    + [Respond(Msg(fd, seqId, body), true), Handle(0, true), Execute(0)]
  }

  /** The only socket that failed is the other one, the response did arrive, and still the
      callback reports a receive failure. */
  lemma ForeignErrorExample(entries: nat, fd: int, seqId: int, timeout: int, other: int, body: int)
    requires entries >= 1 && 1 <= timeout < 0x1_0000 && other != fd
    ensures var run := ForeignErrorRun(fd, seqId, timeout, other, body);
            var s, w := Exec(Init(1, entries), run), Watched(Init(1, entries), run);
            && s.called == [SentBox(fd, seqId, timeout).(status := RxFailure)] && Msg(fd, seqId, body) in s.log.arrived
            && w.errored == {other} && fd !in w.errored && Key(fd, seqId) in w.marked
  {
    hide Do, Exec, Only, Quiet, HoldTimeout, Watched;
    var s0, hold, err := Init(1, entries), HoldMoves(fd, seqId, timeout), SocketError(other, PollHup);
    var b, msg, h := SentBox(fd, seqId, timeout), Msg(fd, seqId, body), HoldTimeout(timeout);
    var tail := [Respond(msg, true), Handle(0, true), Execute(0)];
    HeldRequest(entries, fd, seqId, timeout);
    var s1 := Exec(s0, hold);
    MarkedRequest(s1, FreshBox(fd, seqId, timeout), h, other);
    ExecAppend(s0, hold, [err]);
    ExecOne(s1, err);
    var s2 := Exec(s0, hold + [err]);
    SentRequest(s2, FreshBox(fd, seqId, timeout));
    ExecAppend(s0, hold + [err], SEND);
    var s3 := Exec(s0, hold + [err] + SEND);
    ExecAppend(s0, hold + [err] + SEND, tail);
    ExecThree(s3, tail[0], tail[1], tail[2]);
    AnsweredRequest(s3, b, h, msg);
    var s4 := Do(s3, tail[0]);
    FailedRequest(s4, b, h, msg);
    CalledBack(Do(s4, tail[1]), b.(status := RxFailure));
    QuietMeansEmpty(s1);
    WatchedOnce(s0, hold, err, SEND + tail);
    assert hold + [err] + SEND + tail == hold + [err] + (SEND + tail);
  }

  lemma {:induction false} WatchedNoErrors(s: System, a: seq<Move>, b: seq<Move>)
    requires forall i | 0 <= i < |b| :: !b[i].SocketError?
    ensures Watched(s, a + b) == Watched(s, a)
  {
    hide Do;
    if b == [] {
      assert a + b == a;
    } else {
      assert (a + b)[..|a + b| - 1] == a + b[..|b| - 1];
      WatchedNoErrors(s, a, b[..|b| - 1]);
    }
  }

  /** The history of a run with a single socket error. */
  lemma WatchedOnce(s: System, a: seq<Move>, err: Move, b: seq<Move>)
    requires (forall i | 0 <= i < |a| :: !a[i].SocketError?) && (forall i | 0 <= i < |b| :: !b[i].SocketError?)
    requires err.SocketError? && Strikes(Exec(s, a), err)
    ensures Watched(s, a + [err] + b) == Watch({err.fd}, HeldKeys(Exec(s, a).table))
  {
    hide Do, Exec, HeldKeys, Strikes;
    WatchedNoErrors(s, [], a);
    assert [] + a == a && Watched(s, []) == Watch({}, {});
    assert (a + [err])[..|a + [err]| - 1] == a;
    assert Watched(s, a + [err]) == See(Watched(s, a), Exec(s, a), err);
    hide Watched;
    WatchedNoErrors(s, a + [err], b);
  }
}
