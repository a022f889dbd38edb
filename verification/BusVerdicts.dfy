/** What becomes of a request: each way a request can end, which status its callback then
    reports, and that this verdict stands in every continuation of the run
    (src/lib/bus/listener_io.c, listener_cmd.c, listener_task.c, send.c, send_helper.c). */
module BusVerdicts {
  import opened Wrappers
  import opened RxTable
  import opened BusProtocol
  import opened BusAssertions

  // ---------------------------------------------------------------------------
  // A verdict stands

  /** The box is with the threadpool, or its callback has run. */
  predicate Finished(s: System, b: Box) { b in s.pool || b in s.called }

  lemma FinishedStep(s: System, m: Move, b: Box)
    requires Finished(s, b)
    ensures Finished(Do(s, m), b)
  {
    if b in s.called {
      assert b in Do(s, m).called;
    } else if m.Execute? && !s.crashed && m.k < |s.pool| {
      var i :| 0 <= i < |s.pool| && s.pool[i] == b;
      var t := Do(s, m);
      if i < m.k { assert t.pool[i] == b; } else if i > m.k { assert t.pool[i - 1] == b; }
    } else {
      assert s.pool <= Do(s, m).pool;
    }
  }

  /** A finished box has one verdict. */
  lemma OneVerdict(s: System, b: Box, c: Box)
    requires Inv(s) && Finished(s, b) && Finished(s, c) && b.id == c.id
    ensures b == c
  {
    assert Places(s, b.id) <= 1;
    hide Inv;
    if b in s.pool && c in s.pool {
      var i, j :| 0 <= i < |s.pool| && 0 <= j < |s.pool| && s.pool[i] == b && s.pool[j] == c;
      if i < j { TallyTwice(s.pool, i, j, BoxIs, b.id); } else if j < i { TallyTwice(s.pool, j, i, BoxIs, b.id); }
    } else if b in s.called && c in s.called {
      var i, j :| 0 <= i < |s.called| && 0 <= j < |s.called| && s.called[i] == b && s.called[j] == c;
      if i < j { TallyTwice(s.called, i, j, BoxIs, b.id); } else if j < i { TallyTwice(s.called, j, i, BoxIs, b.id); }
    } else {
      var x, y := if b in s.pool then b else c, if b in s.pool then c else b;
      var i, j :| 0 <= i < |s.pool| && 0 <= j < |s.called| && s.pool[i] == x && s.called[j] == y;
      TallyHas(s.pool, i, BoxIs, b.id);
      TallyHas(s.called, j, BoxIs, b.id);
    }
  }

  /** Once a box is finished, no continuation of the run gives its request another verdict. */
  ghost predicate Stands(s: System, b: Box, later: seq<Move>) {
    var t := Exec(s, later);
    Finished(t, b) && forall c | Finished(t, c) && c.id == b.id :: c == b
  }

  lemma {:induction false} VerdictStands(s: System, b: Box, later: seq<Move>)
    requires Inv(s) && Finished(s, b)
    ensures Stands(s, b, later)
  {
    StaysFinished(s, b, later);
    ExecKeepsInv(s, later);
    hide Inv, Exec;
    forall c | Finished(Exec(s, later), c) && c.id == b.id ensures c == b { OneVerdict(Exec(s, later), b, c); }
  }

  lemma {:induction false} StaysFinished(s: System, b: Box, later: seq<Move>)
    requires Finished(s, b)
    ensures Finished(Exec(s, later), b)
  {
    hide Do, Finished;
    if later != [] {
      StaysFinished(s, b, later[..|later| - 1]);
      FinishedStep(Exec(s, later[..|later| - 1]), later[|later| - 1], b);
    }
  }

  /** Whatever is with the threadpool gets its callback. */
  lemma {:induction false} PoolDrains(s: System)
    requires !s.crashed
    ensures var t := Exec(s, seq(|s.pool|, _ => Execute(0))); t.pool == [] && t.called == s.called + s.pool
    decreases |s.pool|
  {
    var n := |s.pool|;
    if n > 0 {
      var run, rest := seq(n, _ => Execute(0)), seq(n - 1, _ => Execute(0));
      ExecutesFirst(s);
      hide Do;
      var t := Do(s, Execute(0));
      PoolDrains(t);
      assert run == [Execute(0)] + rest;
      ExecAppend(s, [Execute(0)], rest);
      assert [Execute(0)][..0] == [] && Exec(s, []) == s;
      assert Exec(s, [Execute(0)]) == t;
      hide Exec;
      assert s.called + [s.pool[0]] + s.pool[1..] == s.called + s.pool;
    }
  }

  lemma ExecutesFirst(s: System)
    requires !s.crashed && s.pool != []
    ensures var t := Do(s, Execute(0));
            !t.crashed && t.pool == s.pool[1..] && t.called == s.called + [s.pool[0]]
  {
  }

  // ---------------------------------------------------------------------------
  // Success

  function Succeeded(b: Box, msg: Msg): Box { b.(status := Success, response := Some(msg)) }

  lemma FindsEntry(s: System, j: nat, fd: int, seqId: int)
    requires Inv(s) && j < |s.table| && Matches(s.table[j], fd, seqId)
    ensures Find(s.table, fd, seqId) == Some(j)
  {
    OneEntryPerKey(s, Find(s.table, fd, seqId).value, j, Key(fd, seqId));
  }

  /** The request went out and its EXPECT waits for the response. */
  predicate Awaits(e: RxInfo, msg: Msg) {
    e.Expect? && e.box.status == RequestComplete && e.result.None? && Matches(e, msg.fd, msg.seqId)
  }

  /** A response that comes in time and that the threadpool takes ends the request in success. */
  lemma ResponseSucceeds(s: System, j: nat, msg: Msg)
    requires Inv(s) && !s.crashed && j < |s.table| && Awaits(s.table[j], msg)
    ensures var t := Do(s, Respond(msg, true));
            !t.crashed && t.pool == s.pool + [Succeeded(s.table[j].box, msg)] && t.table == s.table[j := RELEASED]
  {
    FindsEntry(s, j, msg.fd, msg.seqId);
    hide Inv;
  }

  /** One that the threadpool refuses is kept, and delivered unchanged by the first tick at which
      it does take the task, however often it refuses before. */
  lemma RefusedResponseKept(s: System, j: nat, msg: Msg)
    requires Inv(s) && !s.crashed && j < |s.table| && Awaits(s.table[j], msg)
    ensures var t, e := Do(s, Respond(msg, false)), s.table[j];
            && !t.crashed && t.pool == s.pool
            && t.table == s.table[j := Expect(Succeeded(e.box, msg), ReadyForDelivery, Some(msg), e.timeout)]
  {
    FindsEntry(s, j, msg.fd, msg.seqId);
    hide Inv;
  }

  lemma RetryStep(s: System, j: nat, o: Oracle)
    requires !s.crashed && j < |s.table| && s.table[j].Expect?
    requires s.table[j].error == ReadyForDelivery && s.table[j].box.status == Success
    ensures var t := Do(s, TickEntry(j, o));
            && !t.crashed
            && (o.accept ==> t.pool == s.pool + [s.table[j].box] && t.table == s.table[j := RELEASED])
            && (!o.accept ==> t == s)
  {
    assert s.table[j := s.table[j]] == s.table;
  }

  lemma {:induction false} RetriesUntilAccepted(s: System, j: nat, refusals: nat, clock: bool)
    requires !s.crashed && j < |s.table| && s.table[j].Expect?
    requires s.table[j].error == ReadyForDelivery && s.table[j].box.status == Success
    ensures var refused := seq(refusals, _ => TickEntry(j, Oracle(false, clock)));
            var t := Exec(s, refused + [TickEntry(j, Oracle(true, clock))]);
            !t.crashed && t.pool == s.pool + [s.table[j].box]
  {
    var run := seq(refusals, _ => TickEntry(j, Oracle(false, clock)));
    RefusalsChangeNothing(s, j, refusals, clock);
    assert (run + [TickEntry(j, Oracle(true, clock))])[..refusals] == run;
    hide Do;
    RetryStep(s, j, Oracle(true, clock));
  }

  lemma {:induction false} RefusalsChangeNothing(s: System, j: nat, n: nat, clock: bool)
    requires !s.crashed && j < |s.table| && s.table[j].Expect?
    requires s.table[j].error == ReadyForDelivery && s.table[j].box.status == Success
    ensures Exec(s, seq(n, _ => TickEntry(j, Oracle(false, clock)))) == s
  {
    hide Do;
    if n > 0 {
      var tick := TickEntry(j, Oracle(false, clock));
      assert seq(n, _ => tick)[..n - 1] == seq(n - 1, _ => tick);
      RefusalsChangeNothing(s, j, n - 1, clock);
      RetryStep(s, j, Oracle(false, clock));
    }
  }

  /** In every run: a response that comes while its EXPECT waits, and that the threadpool takes,
      ends the request in success with that response, whatever happens later. */
  lemma AnsweredInTimeSucceeds(
    senders: nat, entries: nat, past: seq<Move>, j: nat, msg: Msg, later: seq<Move>)
    ensures var s := Exec(Init(senders, entries), past);
            !s.crashed && j < |s.table| && Awaits(s.table[j], msg) ==>
              Stands(Do(s, Respond(msg, true)), Succeeded(s.table[j].box, msg), later)
  {
    RunKeepsInv(senders, entries, past);
    var s := Exec(Init(senders, entries), past);
    hide Exec, Inv, Do, Stands;
    if !s.crashed && j < |s.table| && Awaits(s.table[j], msg) {
      ResponseSucceeds(s, j, msg);
      StepKeepsInv(s, Respond(msg, true));
      var t := Do(s, Respond(msg, true));
      assert t.pool[|s.pool|] == Succeeded(s.table[j].box, msg);
      VerdictStands(t, Succeeded(s.table[j].box, msg), later);
    }
  }

  /** The oldest command is the EXPECT of the request held at j, whose socket has not failed. */
  predicate MeetsHold(s: System, j: nat) {
    && s.queue != [] && s.queue[0].ExpectCmd? && j < |s.table|
    && HoldsKey(s.table[j], KeyOf(s.queue[0].box)) && s.table[j].error == NoError
  }

  /** A response that comes while the request is still only held is stored ... */
  lemma ResponseIsHeld(s: System, j: nat, msg: Msg, accept: bool)
    requires Inv(s) && !s.crashed && j < |s.table| && s.table[j].Hold? && s.table[j].result.None?
    requires Matches(s.table[j], msg.fd, msg.seqId)
    ensures var t, e := Do(s, Respond(msg, accept)), s.table[j];
            && !t.crashed && t.queue == s.queue && t.pool == s.pool
            && t.table == s.table[j := Hold(e.fd, e.seqId, e.timeout, Some(msg), e.error)]
  {
    FindsEntry(s, j, msg.fd, msg.seqId);
    hide Inv;
  }

  /** ... and ends the request in success when its EXPECT is handled and the threadpool takes it. */
  lemma HeldResponseSucceeds(s: System, j: nat, slot: nat)
    requires Inv(s) && !s.crashed && MeetsHold(s, j) && s.table[j].result.Some?
    ensures var t := Do(s, Handle(slot, true));
            && !t.crashed && t.pool == s.pool + [Succeeded(s.queue[0].box, s.table[j].result.value)]
            && t.table == s.table[j := RELEASED]
  {
    var b := s.queue[0].box;
    FindsEntry(s, j, b.fd, b.seqId);
    assert CmdOk(s.log, s.queue[0]);
    hide Inv;
  }

  /** Without one, the EXPECT starts to wait, for the request's own timeout. */
  lemma ExpectStartsWaiting(s: System, j: nat, slot: nat, accept: bool)
    requires Inv(s) && !s.crashed && MeetsHold(s, j) && s.table[j].result.None?
    ensures var t, b := Do(s, Handle(slot, accept)), s.queue[0].box;
            !t.crashed && t.pool == s.pool && t.table == s.table[j := Expect(b, NoError, None, b.timeout)]
  {
    var b := s.queue[0].box;
    FindsEntry(s, j, b.fd, b.seqId);
    hide Inv;
  }

  /** In every run: a response that came during HOLD is the verdict once the EXPECT is handled. */
  lemma AnsweredEarlySucceeds(
    senders: nat, entries: nat, past: seq<Move>, j: nat, msg: Msg, accept: bool, slot: nat, later: seq<Move>)
    ensures var s := Exec(Init(senders, entries), past);
            !s.crashed && MeetsHold(s, j) && s.table[j].result.None? && Matches(s.table[j], msg.fd, msg.seqId) ==>
              Stands(Do(Do(s, Respond(msg, accept)), Handle(slot, true)), Succeeded(s.queue[0].box, msg), later)
  {
    RunKeepsInv(senders, entries, past);
    var s := Exec(Init(senders, entries), past);
    hide Exec, Inv, Do, Stands;
    if !s.crashed && MeetsHold(s, j) && s.table[j].result.None? && Matches(s.table[j], msg.fd, msg.seqId) {
      ResponseIsHeld(s, j, msg, accept);
      StepKeepsInv(s, Respond(msg, accept));
      var t := Do(s, Respond(msg, accept));
      HeldResponseSucceeds(t, j, slot);
      StepKeepsInv(t, Handle(slot, true));
      var u := Do(t, Handle(slot, true));
      assert u.pool[|t.pool|] == Succeeded(s.queue[0].box, msg);
      VerdictStands(u, Succeeded(s.queue[0].box, msg), later);
    }
  }

  // ---------------------------------------------------------------------------
  // Receive failure

  predicate SocketFails(err: RxError) { err in {PollHup, PollErr, ReadFailure} }

  /** An EXPECT whose own socket fails is reported as a receive failure by the next tick at which
      the threadpool takes the task. */
  lemma OwnErrorIsReported(s: System, j: nat, err: RxError, clock: bool)
    requires !s.crashed && j < |s.table| && s.table[j].Expect? && SocketFails(err)
    ensures var t := Do(Do(s, SocketError(s.table[j].box.fd, err)), TickEntry(j, Oracle(true, clock)));
            && !t.crashed && t.pool == s.pool + [s.table[j].box.(status := RxFailure)]
            && j < |t.table| && t.table[j] == RELEASED
  {
    var u := Do(s, SocketError(s.table[j].box.fd, err));
    assert u.table[j] == OnError(s.table[j], s.table[j].box.fd, err);
  }

  /** The request is past the reach of its timeout: its EXPECT carries an error, or it has ended
      otherwise. */
  ghost predicate PastTimeout(s: System, id: nat) {
    || (exists j | 0 <= j < |s.table| :: Struck(s.table[j], id))
    || (exists b :: Finished(s, b) && b.id == id && b.status != RxTimeout)
  }

  predicate Struck(e: RxInfo, id: nat) {
    e.Expect? && e.box.id == id && e.error != NoError && e.box.status != RxTimeout
  }

  predicate OutcomeStruck(o: Outcome, id: nat) {
    match o
    case Keep(e) => Struck(e, id)
    case Deliver(b) => b.id == id && b.status != RxTimeout
    case Expire => false
    case Crash => true
  }

  lemma OutcomesStruck(e: RxInfo, id: nat, msg: Msg, accept: bool, o: Oracle)
    requires Struck(e, id)
    ensures OutcomeStruck(OnTick(e, o), id) && OutcomeStruck(OnResponse(e, msg, accept), id)
  {
  }

  lemma SettleStruck(s: System, j: nat, i: nat, o: Outcome, id: nat)
    requires i < |s.table| && j < |s.table| && Struck(s.table[j], id) && (i == j ==> OutcomeStruck(o, id))
    ensures PastTimeout(Settle(s, i, o), id)
  {
    var t := Settle(s, i, o);
    if o.Deliver? && i == j {
      assert t.pool[|s.pool|] == o.box;
      assert Finished(t, o.box);
    } else {
      assert Struck(t.table[j], id);
    }
  }

  lemma TickStruck(s: System, j: nat, i: nat, o: Oracle, id: nat)
    requires i < |s.table| && j < |s.table| && Struck(s.table[j], id)
    ensures PastTimeout(TickOne(s, i, o), id)
  {
    hide OnTick, OnResponse;
    OutcomesStruck(s.table[j], id, NO_MSG, true, o);
    SettleStruck(s, j, i, OnTick(s.table[i], o), id);
    SamePast(Settle(s, i, OnTick(s.table[i], o)), TickOne(s, i, o), id);
  }

  lemma SamePast(s: System, t: System, id: nat)
    requires PastTimeout(s, id) && t.table == s.table && t.pool == s.pool && t.called == s.called
    ensures PastTimeout(t, id)
  {
    if b :| Finished(s, b) && b.id == id && b.status != RxTimeout { assert Finished(t, b); }
  }

  lemma ReceiveStruck(s: System, j: nat, msg: Msg, accept: bool, id: nat)
    requires j < |s.table| && Struck(s.table[j], id)
    ensures PastTimeout(Receive(s, msg, accept), id)
  {
    hide OnTick, OnResponse;
    var t := s.(log := s.log.(arrived := s.log.arrived + {msg}));
    var found := Find(t.table, msg.fd, msg.seqId);
    if found.Some? {
      OutcomesStruck(s.table[j], id, msg, accept, Oracle(true, true));
      SettleStruck(t, j, found.value, OnResponse(t.table[found.value], msg, accept), id);
    } else {
      assert Struck(t.table[j], id);
    }
  }

  lemma HandleStruck(s: System, j: nat, slot: nat, accept: bool, id: nat)
    requires Inv(s) && !s.crashed && s.queue != [] && j < |s.table| && Struck(s.table[j], id)
    ensures var t := HandleNext(s, slot, accept); j < |t.table| && Struck(t.table[j], id)
  {
    if s.queue[0].ExpectCmd? { ExpectFindsHold(s); }
    hide Inv;
  }

  lemma StruckStep(s: System, m: Move, j: nat, id: nat)
    requires Inv(s) && !s.crashed && j < |s.table| && Struck(s.table[j], id)
    ensures PastTimeout(Do(s, m), id)
  {
    hide Inv, HandleNext, Receive, TickOne, PastTimeout;
    match m
    case Handle(slot, accept) =>
      if Do(s, m) == s { StruckIsPast(s, j, id); } else {
        HandleStruck(s, j, slot, accept, id);
        StruckIsPast(Do(s, m), j, id);
      }
    case Respond(msg, accept) => ReceiveStruck(s, j, msg, accept, id);
    case TickEntry(i, o) => if i < |s.table| { TickStruck(s, j, i, o, id); } else { StruckIsPast(s, j, id); }
    case SocketError(_, _) => StruckIsPast(Do(s, m), j, id);
    case _ => StruckIsPast(Do(s, m), j, id);
  }

  lemma StruckIsPast(s: System, j: nat, id: nat)
    requires j < |s.table| && Struck(s.table[j], id)
    ensures PastTimeout(s, id)
  {
  }

  lemma PastStep(s: System, m: Move, id: nat)
    requires Inv(s) && PastTimeout(s, id)
    ensures PastTimeout(Do(s, m), id)
  {
    if s.crashed {
    } else if j :| 0 <= j < |s.table| && Struck(s.table[j], id) {
      StruckStep(s, m, j, id);
    } else {
      var b :| Finished(s, b) && b.id == id && b.status != RxTimeout;
      FinishedStep(s, m, b);
    }
  }

  lemma {:induction false} PastRun(s: System, moves: seq<Move>, id: nat)
    requires Inv(s) && PastTimeout(s, id)
    ensures PastTimeout(Exec(s, moves), id)
  {
    hide Do, Inv, PastTimeout;
    if moves != [] {
      PastRun(s, moves[..|moves| - 1], id);
      ExecKeepsInv(s, moves[..|moves| - 1]);
      PastStep(Exec(s, moves[..|moves| - 1]), moves[|moves| - 1], id);
    }
  }

  /** The request has ended in a timeout. */
  predicate TimedOut(s: System, id: nat) {
    exists i | 0 <= i < |s.called| :: s.called[i].id == id && s.called[i].status == RxTimeout
  }

  lemma PastNeverTimesOut(s: System, id: nat)
    requires Inv(s) && PastTimeout(s, id)
    ensures !TimedOut(s, id)
  {
    if i: nat :| i < |s.called| && s.called[i].id == id && s.called[i].status == RxTimeout {
      assert Finished(s, s.called[i]);
      if b :| Finished(s, b) && b.id == id && b.status != RxTimeout {
        OneVerdict(s, b, s.called[i]);
      } else {
        var j :| 0 <= j < |s.table| && Struck(s.table[j], id);
        assert Places(s, id) <= 1;
        TallyHas(s.table, j, EntryHas, id);
        TallyHas(s.called, i, BoxIs, id);
      }
    }
  }

  /** In every run: a request whose EXPECT was in the table when its own socket failed, and had not
      timed out by then, never ends in a timeout. */
  lemma OwnErrorNeverTimesOut(
    senders: nat, entries: nat, past: seq<Move>, j: nat, err: RxError, later: seq<Move>)
    ensures var s := Exec(Init(senders, entries), past);
            && !s.crashed && j < |s.table| && SocketFails(err)
            && s.table[j].Expect? && s.table[j].box.status != RxTimeout ==>
              !TimedOut(Exec(Do(s, SocketError(s.table[j].box.fd, err)), later), s.table[j].box.id)
  {
    RunKeepsInv(senders, entries, past);
    var s := Exec(Init(senders, entries), past);
    if !s.crashed && j < |s.table| && s.table[j].Expect? && s.table[j].box.status != RxTimeout && SocketFails(err) {
      var m, id := SocketError(s.table[j].box.fd, err), s.table[j].box.id;
      assert Struck(Do(s, m).table[j], id);
      StruckIsPast(Do(s, m), j, id);
      StepKeepsInv(s, m);
      hide Do, Exec, Inv, PastTimeout, TimedOut;
      PastRun(Do(s, m), later, id);
      ExecKeepsInv(Do(s, m), later);
      PastNeverTimesOut(Exec(Do(s, m), later), id);
    }
  }

  // ---------------------------------------------------------------------------
  // Failures of the sender

  /** A send that fails after HOLD is reported with its own status, and without a response, once
      the threadpool takes it. */
  lemma SendFailureIsReported(s: System, i: nat, status: Status)
    requires !s.crashed && i < |s.senders| && (s.senders[i].Writing? || s.senders[i].Expecting?)
    requires status in {TxTimeout, TxFailure, UnregisteredSocket, TxTimeoutNotifyingListener, TimestampError}
    ensures var t := Do(Do(s, SendFails(i, status)), FailureAccepted(i));
            && !t.crashed && t.pool == s.pool + [s.senders[i].box.(status := status, response := None)]
            && t.senders == s.senders[i := Idle]
  {
    var u := Do(s, SendFails(i, status));
    assert u.senders[i := Idle] == s.senders[i := Idle];
  }

  /** A rejected request is given back to its caller ... */
  lemma RejectionGivesBack(s: System, i: nat)
    requires !s.crashed && i < |s.senders| && (s.senders[i].Boxed? || s.senders[i].Holding?)
    ensures var t := Do(s, Reject(i));
            t.rejected == s.rejected + [s.senders[i].box] && t.senders == s.senders[i := Idle] && t.pool == s.pool
  {
  }

  lemma {:induction false} RejectedStays(s: System, moves: seq<Move>)
    ensures s.rejected <= Exec(s, moves).rejected
  {
    if moves != [] {
      hide Do;
      RejectedStays(s, moves[..|moves| - 1]);
      RejectedStep(Exec(s, moves[..|moves| - 1]), moves[|moves| - 1]);
    }
  }

  lemma RejectedStep(s: System, m: Move)
    ensures s.rejected <= Do(s, m).rejected
  {
  }

  /** ... and its callback never runs, in any continuation. */
  lemma RejectedNeverCalled(senders: nat, entries: nat, past: seq<Move>, i: nat, later: seq<Move>)
    ensures var s := Exec(Init(senders, entries), past);
            !s.crashed && i < |s.senders| && (s.senders[i].Boxed? || s.senders[i].Holding?) ==>
              var t := Exec(Do(s, Reject(i)), later);
              forall k | 0 <= k < |t.called| :: t.called[k].id != s.senders[i].box.id
  {
    var s0 := Init(senders, entries);
    var s := Exec(s0, past);
    if !s.crashed && i < |s.senders| && (s.senders[i].Boxed? || s.senders[i].Holding?) {
      var u, id := Do(s, Reject(i)), s.senders[i].box.id;
      RejectionGivesBack(s, i);
      RejectedStays(u, later);
      RunKeepsInv(senders, entries, past);
      StepKeepsInv(s, Reject(i));
      ExecKeepsInv(u, later);
      var t := Exec(u, later);
      assert t.rejected[|s.rejected|].id == id;
      hide Exec, Do;
      assert Places(t, id) <= 1;
      TallyHas(t.rejected, |s.rejected|, BoxIs, id);
      forall k | 0 <= k < |t.called| ensures t.called[k].id != id { TallyHas(t.called, k, BoxIs, id); }
    }
  }
}
