/** Bounded waiting: how long an entry of the listener's table can stay in use
    (src/lib/bus/listener_task.c:117-217). */
module BusWaiting {
  import opened RxTable
  import opened BusProtocol
  import opened BusAssertions

  /** Entry j still waits for request k and has at most `budget` ticks left, when the
      request's own timeout is at most `limit`. */
  predicate Waiting(s: System, j: nat, k: Key, limit: int, budget: int) {
    && j < |s.table| && Matches(s.table[j], k.fd, k.seqId)
    && match s.table[j]
       case Hold(_, _, timeout, _, _) => timeout >= 1 && timeout + limit <= budget
       case Expect(b, error, _, timeout) =>
         b.timeout <= limit && 1 <= budget && (error == NoError ==> 1 <= timeout <= budget)
       case _ => true
  }

  ghost predicate LimitOk(s: System, k: Key, limit: int) {
    && limit >= 1 && Used(s, k)
    && forall i | 0 <= i < |s.log.made| && KeyOf(s.log.made[i]) == k :: s.log.made[i].timeout <= limit
  }

  predicate TicksEntry(m: Move, j: nat) { m.TickEntry? && m.j == j }

  function TicksOf(moves: seq<Move>, j: nat): nat {
    if moves == [] then 0
    else TicksOf(moves[..|moves| - 1], j) + if TicksEntry(moves[|moves| - 1], j) then 1 else 0
  }

  predicate GivenBack(s: System, j: nat) {
    j < |s.table| && s.table[j].Inactive?
  }

  /** At some point of the run entry j was back on the freelist. */
  predicate GivenBackDuring(s: System, moves: seq<Move>, j: nat) {
    GivenBack(Exec(s, moves), j) || (moves != [] && GivenBackDuring(s, moves[..|moves| - 1], j))
  }

  lemma WaitingTick(s: System, o: Oracle, j: nat, k: Key, limit: int, budget: int)
    requires o == Oracle(true, true) && Waiting(s, j, k, limit, budget)
    ensures var t := Do(s, TickEntry(j, o)); t.crashed || GivenBack(t, j) || Waiting(t, j, k, limit, budget - 1)
  {
  }

  lemma WaitingHandle(s: System, slot: nat, j: nat, k: Key, limit: int, budget: int)
    requires Inv(s) && Waiting(s, j, k, limit, budget) && LimitOk(s, k, limit)
    ensures var t := Do(s, Handle(slot, true)); t.crashed || GivenBack(t, j) || Waiting(t, j, k, limit, budget)
  {
    if !s.crashed && s.queue != [] && s.queue[0].ExpectCmd? {
      var b := s.queue[0].box;
      ExpectFindsHold(s);
      assert CmdOk(s.log, s.queue[0]);
      assert KeyOf(b) == k ==> 1 <= b.timeout <= limit;
      hide Inv, LimitOk;
    }
  }

  lemma WaitingOther(s: System, m: Move, j: nat, k: Key, limit: int, budget: int)
    requires Prompt(m) && Waiting(s, j, k, limit, budget) && !m.Handle? && !TicksEntry(m, j)
    ensures var t := Do(s, m); t.crashed || GivenBack(t, j) || Waiting(t, j, k, limit, budget)
  {
  }

  lemma WaitingStep(s: System, m: Move, j: nat, k: Key, limit: int, budget: int)
    requires Inv(s) && Prompt(m) && Waiting(s, j, k, limit, budget) && LimitOk(s, k, limit)
    ensures var t := Do(s, m);
            t.crashed || GivenBack(t, j) || Waiting(t, j, k, limit, if TicksEntry(m, j) then budget - 1 else budget)
  {
    if TicksEntry(m, j) { WaitingTick(s, m.o, j, k, limit, budget); }
    else if m.Handle? { WaitingHandle(s, m.slot, j, k, limit, budget); }
    else { WaitingOther(s, m, j, k, limit, budget); }
  }

  lemma LimitKept(s: System, m: Move, k: Key, limit: int)
    requires LimitOk(s, k, limit)
    ensures LimitOk(Do(s, m), k, limit)
  {
  }

  ghost predicate Waits(s: System, j: nat, k: Key, limit: int, budget: int) {
    Inv(s) && LimitOk(s, k, limit) && Waiting(s, j, k, limit, budget)
  }

  lemma WaitsStep(s: System, m: Move, j: nat, k: Key, limit: int, budget: int)
    requires Waits(s, j, k, limit, budget) && Prompt(m)
    ensures var t := Do(s, m);
            t.crashed || GivenBack(t, j) || Waits(t, j, k, limit, if TicksEntry(m, j) then budget - 1 else budget)
  {
    StepKeepsInv(s, m);
    LimitKept(s, m, k, limit);
    WaitingStep(s, m, j, k, limit, budget);
  }

  lemma CrashStays(s: System, m: Move)
    ensures s.crashed ==> Do(s, m).crashed
  {
  }

  lemma {:induction false} WaitsRun(s: System, moves: seq<Move>, j: nat, k: Key, limit: int, budget: int)
    requires Waits(s, j, k, limit, budget)
    requires (forall i | 0 <= i < |moves| :: Prompt(moves[i])) && !Exec(s, moves).crashed
    ensures GivenBackDuring(s, moves, j) || Waits(Exec(s, moves), j, k, limit, budget - TicksOf(moves, j))
  {
    hide Do, Waits;
    if moves != [] {
      var before := moves[..|moves| - 1];
      CrashStays(Exec(s, before), moves[|moves| - 1]);
      WaitsRun(s, before, j, k, limit, budget);
      if !GivenBackDuring(s, before, j) {
        WaitsStep(Exec(s, before), moves[|moves| - 1], j, k, limit, budget - TicksOf(before, j));
      }
    }
  }

  lemma WaitsFromHold(s: System, j: nat, e: int)
    requires Inv(s) && j < |s.table| && s.table[j].Hold? && s.table[j].timeout >= 1 && e >= 1
    requires forall i | 0 <= i < |s.log.made| && Matches(s.table[j], s.log.made[i].fd, s.log.made[i].seqId) ::
               s.log.made[i].timeout <= e
    ensures Waits(s, j, Key(s.table[j].fd, s.table[j].seqId), e, s.table[j].timeout + e)
  {
    var k := Key(s.table[j].fd, s.table[j].seqId);
    TallyHas(s.table, j, EntryKnows, k);
    assert Tokens(s, k) > 0;
    forall i | 0 <= i < |s.log.made| && KeyOf(s.log.made[i]) == k ensures s.log.made[i].timeout <= e {
      assert Matches(s.table[j], s.log.made[i].fd, s.log.made[i].seqId);
    }
  }

  /** An entry that still waits has a tick left. */
  lemma WaitsHasBudget(s: System, j: nat, k: Key, limit: int, budget: int)
    requires Waits(s, j, k, limit, budget)
    ensures budget >= 1
  {
    hide Inv;
  }

  /** Entry j is a HOLD with time left, the requests of its key wait at most e seconds, and the
      moves give it a tick for each second of both. */
  ghost predicate Due(s: System, moves: seq<Move>, j: nat, e: int) {
    && j < |s.table| && s.table[j].Hold? && s.table[j].timeout >= 1 && e >= 1
    && (forall i | 0 <= i < |s.log.made| && Matches(s.table[j], s.log.made[i].fd, s.log.made[i].seqId) ::
          s.log.made[i].timeout <= e)
    && TicksOf(moves, j) >= s.table[j].timeout + e
  }

  /** The threadpool takes every task and no move trips an assertion. */
  ghost predicate Smooth(s: System, moves: seq<Move>) {
    (forall i | 0 <= i < |moves| :: Prompt(moves[i])) && NeverTrips(s, moves)
  }

  /** Bounded waiting: from any reachable state, however HOLDs, EXPECTs, responses and socket
      errors come in, an entry holding a request with HOLD timeout h >= 1 and request timeout
      e is back on the freelist within h + e of its ticks, as long as the threadpool takes
      tasks and no move trips an assertion. */
  lemma {:induction false} GivenBackInTime(
    senders: nat, entries: nat, past: seq<Move>, moves: seq<Move>, j: nat, e: int)
    ensures var s := Exec(Init(senders, entries), past);
            !s.crashed && Due(s, moves, j, e) && Smooth(s, moves) ==> GivenBackDuring(s, moves, j)
  {
    hide Do, Inv, Exec, Waits, Trips;
    RunKeepsInv(senders, entries, past);
    var s := Exec(Init(senders, entries), past);
    if !s.crashed && Due(s, moves, j, e) && Smooth(s, moves) {
      CrashFreeIff(s, moves);
      var k, h := Key(s.table[j].fd, s.table[j].seqId), s.table[j].timeout;
      WaitsFromHold(s, j, e);
      WaitsRun(s, moves, j, k, e, h + e);
      if !GivenBackDuring(s, moves, j) { WaitsHasBudget(Exec(s, moves), j, k, e, h + e - TicksOf(moves, j)); }
    }
  }
}
