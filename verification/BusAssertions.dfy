/** When the listener's assertions fire (src/lib/bus/listener_io.c:339-365,
    src/lib/bus/listener_task.c:245-275, src/lib/bus/listener_cmd.c:339-342): exactly which moves
    trip one, how an entry gets to where a tick trips it, and which runs never do. */
module BusAssertions {
  import opened Wrappers
  import opened RxTable
  import opened BusProtocol

  /** An entry whose next retry finds a box without a success. */
  predicate Doomed(e: RxInfo) {
    e.Expect? && e.error == ReadyForDelivery && e.box.status != Success
  }

  /** The move makes the listener violate an assertion: a second response for an entry that
      still keeps its first, or the retry of a doomed entry. */
  predicate Trips(s: System, m: Move) {
    match m
    case Respond(msg, _) =>
      exists j | 0 <= j < |s.table| :: Matches(s.table[j], msg.fd, msg.seqId) && s.table[j].result.Some?
    case TickEntry(j, _) => j < |s.table| && Doomed(s.table[j])
    case _ => false
  }

  ghost predicate NeverTrips(s: System, moves: seq<Move>) {
    moves == [] ||
    (var before := moves[..|moves| - 1];
     NeverTrips(s, before) && !Trips(Exec(s, before), moves[|moves| - 1]))
  }

  /** The table knows each request once. */
  lemma OneEntryPerKey(s: System, i: nat, j: nat, k: Key)
    requires Inv(s) && i < |s.table| && j < |s.table|
    requires Matches(s.table[i], k.fd, k.seqId) && Matches(s.table[j], k.fd, k.seqId)
    ensures i == j
  {
    assert Tokens(s, k) <= 1;
    if i < j { TallyTwice(s.table, i, j, EntryKnows, k); }
    if j < i { TallyTwice(s.table, j, i, EntryKnows, k); }
  }

  lemma RespondCrashesIff(s: System, msg: Msg, accept: bool)
    requires Inv(s) && !s.crashed
    ensures Receive(s, msg, accept).crashed <==> Trips(s, Respond(msg, accept))
  {
    var found := Find(s.table, msg.fd, msg.seqId);
    if j: nat :| j < |s.table| && Matches(s.table[j], msg.fd, msg.seqId) && s.table[j].result.Some? {
      OneEntryPerKey(s, found.value, j, Key(msg.fd, msg.seqId));
    }
    hide Inv;
  }

  lemma TickCrashesIff(s: System, j: nat, o: Oracle)
    requires Inv(s) && !s.crashed && j < |s.table|
    ensures TickOne(s, j, o).crashed <==> Doomed(s.table[j])
  {
    assert EntryOk(s.log, s.table[j]);
    hide Inv;
  }

  lemma HandleNeverCrashes(s: System, slot: nat, accept: bool)
    requires Inv(s) && !s.crashed && s.queue != []
    ensures !HandleNext(s, slot, accept).crashed
  {
    if s.queue[0].ExpectCmd? { ExpectFindsHold(s); }
    hide Inv;
  }

  /** In every state that keeps the invariant, a move violates an assertion exactly if it trips. */
  lemma StepCrashesIff(s: System, m: Move)
    requires Inv(s) && !s.crashed
    ensures Do(s, m).crashed <==> Trips(s, m)
  {
    hide Inv, HandleNext, Receive, TickOne;
    match m
    case Handle(slot, accept) => if s.queue != [] { HandleNeverCrashes(s, slot, accept); }
    case Respond(msg, accept) => RespondCrashesIff(s, msg, accept);
    case TickEntry(j, o) => if j < |s.table| { TickCrashesIff(s, j, o); }
    case _ =>
  }

  lemma {:induction false} ExecKeepsInv(s: System, moves: seq<Move>)
    requires Inv(s)
    ensures Inv(Exec(s, moves))
  {
    hide Do, Inv;
    if moves != [] {
      ExecKeepsInv(s, moves[..|moves| - 1]);
      StepKeepsInv(Exec(s, moves[..|moves| - 1]), moves[|moves| - 1]);
    }
  }

  lemma {:induction false} ExecAppend(s: System, a: seq<Move>, b: seq<Move>)
    ensures Exec(s, a + b) == Exec(Exec(s, a), b)
  {
    hide Do;
    if b == [] {
      assert a + b == a;
    } else {
      assert (a + b)[..|a + b| - 1] == a + b[..|b| - 1];
      ExecAppend(s, a, b[..|b| - 1]);
    }
  }

  /** A run stays free of assertion failures exactly if none of its moves trips. */
  lemma {:induction false} CrashFreeIff(s: System, moves: seq<Move>)
    requires Inv(s) && !s.crashed
    ensures !Exec(s, moves).crashed <==> NeverTrips(s, moves)
  {
    hide Inv, Trips;
    if moves != [] {
      var before, m := moves[..|moves| - 1], moves[|moves| - 1];
      CrashFreeIff(s, before);
      ExecKeepsInv(s, before);
      if !Exec(s, before).crashed { StepCrashesIff(Exec(s, before), m); }
      assert Exec(s, before).crashed ==> Exec(s, moves).crashed;
    }
  }

  /** The same from the start: every run of any number of senders over a table of any size. */
  lemma NoAssertionFailsIff(senders: nat, entries: nat, moves: seq<Move>)
    ensures !Exec(Init(senders, entries), moves).crashed <==> NeverTrips(Init(senders, entries), moves)
  {
    InitInv(senders, entries);
    CrashFreeIff(Init(senders, entries), moves);
  }

  // ---------------------------------------------------------------------------
  // How an entry becomes doomed

  /** The move's failure notice for box id, a timeout or a receive error, is refused. */
  predicate RefusesNotice(s: System, m: Move, id: nat) {
    match m
    case TickEntry(j, o) =>
      && !o.accept && j < |s.table| && s.table[j].Expect? && s.table[j].box.id == id
      && s.table[j].error != ReadyForDelivery && (s.table[j].error == NoError ==> s.table[j].timeout == 1 && o.clock)
    case Handle(_, accept) =>
      && !accept && s.queue != [] && s.queue[0].ExpectCmd? && s.queue[0].box.id == id
      && exists j | 0 <= j < |s.table| :: HoldsKey(s.table[j], KeyOf(s.queue[0].box)) && s.table[j].error != NoError
    case _ => false
  }

  /** The move's response for box id, already known to the listener, is refused. */
  predicate RefusesResponse(s: System, m: Move, id: nat) {
    m.Respond? && !m.accept &&
    exists j | 0 <= j < |s.table| ::
      s.table[j].Expect? && s.table[j].box.id == id && Matches(s.table[j], m.msg.fd, m.msg.seqId)
  }

  /** The entry still holds box id and has failed to report that request's failure. */
  predicate Failed(e: RxInfo, id: nat) {
    e.Expect? && e.box.id == id && e.box.status != RequestComplete && e.box.status != Success
  }

  lemma HandleFails(s: System, slot: nat, accept: bool, j: nat, id: nat)
    requires Inv(s) && !s.crashed && s.queue != [] && j < |s.table| && Failed(HandleNext(s, slot, accept).table[j], id)
    ensures Failed(s.table[j], id) || RefusesNotice(s, Handle(slot, accept), id)
    ensures Doomed(HandleNext(s, slot, accept).table[j]) ==> Doomed(s.table[j]) && Failed(s.table[j], id)
  {
    if s.queue[0].ExpectCmd? {
      ExpectFindsHold(s);
      assert CmdOk(s.log, s.queue[0]);
    }
    assert EntryOk(s.log, s.table[j]);
    hide Inv;
  }

  lemma ReceiveFails(s: System, msg: Msg, accept: bool, j: nat, id: nat)
    requires Inv(s) && !s.crashed && j < |s.table| && Failed(Receive(s, msg, accept).table[j], id)
    ensures Failed(s.table[j], id)
    ensures Doomed(Receive(s, msg, accept).table[j]) ==>
          Doomed(s.table[j]) || RefusesResponse(s, Respond(msg, accept), id)
  {
    hide Inv;
  }

  lemma TickFails(s: System, i: nat, o: Oracle, j: nat, id: nat)
    requires Inv(s) && i < |s.table| && j < |s.table| && Failed(TickOne(s, i, o).table[j], id)
    ensures Failed(s.table[j], id) || RefusesNotice(s, TickEntry(i, o), id)
    ensures Doomed(TickOne(s, i, o).table[j]) ==> Doomed(s.table[j]) && Failed(s.table[j], id)
  {
    assert EntryOk(s.log, s.table[j]);
    hide Inv;
  }

  /** An entry fails only by a refused notice, and a failed one becomes doomed only by a refused
      response. */
  lemma StepFails(s: System, m: Move, j: nat, id: nat)
    requires Inv(s) && j < |s.table| && Failed(Do(s, m).table[j], id)
    ensures Failed(s.table[j], id) || RefusesNotice(s, m, id)
    ensures Doomed(Do(s, m).table[j]) ==> Failed(s.table[j], id) && (Doomed(s.table[j]) || RefusesResponse(s, m, id))
  {
    hide Inv, HandleNext, Receive, TickOne;
    if !s.crashed {
      match m
      case Handle(slot, accept) => if Do(s, m) != s { HandleFails(s, slot, accept, j, id); }
      case Respond(msg, accept) => ReceiveFails(s, msg, accept, j, id);
      case TickEntry(i, o) => if i < |s.table| { TickFails(s, i, o, j, id); }
      case _ =>
    }
  }

  lemma {:induction false} TableSize(s: System, moves: seq<Move>)
    ensures |Exec(s, moves).table| == |s.table|
  {
    if moves != [] {
      var before := Exec(s, moves[..|moves| - 1]);
      TableSize(s, moves[..|moves| - 1]);
      assert |Do(before, moves[|moves| - 1]).table| == |before.table|;
    }
  }

  /** The state before move i of a run. */
  function Before(s: System, moves: seq<Move>, i: nat): System
    requires i <= |moves|
  {
    Exec(s, moves[..i])
  }

  lemma BeforePrefix(s: System, moves: seq<Move>, i: nat)
    requires i < |moves|
    ensures Before(s, moves[..|moves| - 1], i) == Before(s, moves, i)
  {
    assert moves[..|moves| - 1][..i] == moves[..i];
  }

  lemma {:induction false} FailedWasRefused(s: System, moves: seq<Move>, j: nat, id: nat) returns (a: nat)
    requires Inv(s) && j < |s.table| && !Failed(s.table[j], id)
    requires |Exec(s, moves).table| == |s.table| && Failed(Exec(s, moves).table[j], id)
    ensures a < |moves| && RefusesNotice(Before(s, moves, a), moves[a], id)
  {
    hide Do, Inv, RefusesNotice, RefusesResponse, Doomed, Failed;
    var before, m := moves[..|moves| - 1], moves[|moves| - 1];
    ExecKeepsInv(s, before);
    TableSize(s, before);
    StepFails(Exec(s, before), m, j, id);
    if Failed(Exec(s, before).table[j], id) {
      a := FailedWasRefused(s, before, j, id);
      BeforePrefix(s, moves, a);
    } else {
      a := |before|;
    }
  }

  lemma {:induction false} DoomedWasRefusedTwice(s: System, moves: seq<Move>, j: nat, id: nat) returns (a: nat, b: nat)
    requires Inv(s) && j < |s.table| && !Failed(s.table[j], id)
    requires |Exec(s, moves).table| == |s.table|
    requires Failed(Exec(s, moves).table[j], id) && Doomed(Exec(s, moves).table[j])
    ensures a < b < |moves|
    ensures RefusesNotice(Before(s, moves, a), moves[a], id) && RefusesResponse(Before(s, moves, b), moves[b], id)
  {
    hide Do, Inv, RefusesNotice, RefusesResponse, Doomed, Failed;
    var before, m := moves[..|moves| - 1], moves[|moves| - 1];
    ExecKeepsInv(s, before);
    TableSize(s, before);
    StepFails(Exec(s, before), m, j, id);
    if Doomed(Exec(s, before).table[j]) {
      a, b := DoomedWasRefusedTwice(s, before, j, id);
      BeforePrefix(s, moves, a);
      BeforePrefix(s, moves, b);
    } else {
      a := FailedWasRefused(s, before, j, id);
      BeforePrefix(s, moves, a);
      b := |before|;
    }
  }

  /** In every run, an entry that a tick would trip on got there in two steps: the threadpool
      refused the notice of its request's failure, and later refused its response. */
  lemma DoomedEntries(senders: nat, entries: nat, moves: seq<Move>, j: nat)
    requires var s := Exec(Init(senders, entries), moves); j < |s.table| && Doomed(s.table[j])
    ensures var s0 := Init(senders, entries); var id := Exec(s0, moves).table[j].box.id;
            exists a: nat, b: nat | a < b < |moves| ::
              RefusesNotice(Before(s0, moves, a), moves[a], id) && RefusesResponse(Before(s0, moves, b), moves[b], id)
  {
    var s0 := Init(senders, entries);
    InitInv(senders, entries);
    RunKeepsInv(senders, entries, moves);
    TableSize(s0, moves);
    var s := Exec(s0, moves);
    DoomedIsFailed(s, j);
    hide Do, Exec, Inv, RefusesNotice, RefusesResponse;
    var a, b := DoomedWasRefusedTwice(s0, moves, j, s.table[j].box.id);
  }

  lemma DoomedIsFailed(s: System, j: nat)
    requires Inv(s) && j < |s.table| && Doomed(s.table[j])
    ensures Failed(s.table[j], s.table[j].box.id)
  {
    assert EntryOk(s.log, s.table[j]);
  }

  // ---------------------------------------------------------------------------
  // Runs that never do

  /** A move in which the threadpool takes every task and the clock works. */
  predicate Prompt(m: Move) {
    match m
    case Handle(_, accept) => accept
    case Respond(_, accept) => accept
    case TickEntry(_, o) => o == Oracle(true, true)
    case _ => true
  }

  /** The peer has not answered this request before. */
  ghost predicate FirstAnswer(s: System, m: Move) {
    m.Respond? ==> forall msg | msg in s.log.arrived :: msg.fd != m.msg.fd || msg.seqId != m.msg.seqId
  }

  /** Each move is prompt, and answers a request at most once. */
  ghost predicate WellBehaved(s: System, moves: seq<Move>) {
    moves == [] || (var before := moves[..|moves| - 1];
      WellBehaved(s, before) && Prompt(moves[|moves| - 1]) && FirstAnswer(Exec(s, before), moves[|moves| - 1]))
  }

  /** No response is left waiting for a retry. */
  ghost predicate Settled(s: System) {
    forall j | 0 <= j < |s.table| && s.table[j].Expect? ::
      s.table[j].result.None? && s.table[j].error != ReadyForDelivery
  }

  lemma SettledNeverTrips(s: System, m: Move)
    requires Inv(s) && Settled(s) && FirstAnswer(s, m)
    ensures !Trips(s, m)
  {
    if m.Respond? {
      forall j | 0 <= j < |s.table| && Matches(s.table[j], m.msg.fd, m.msg.seqId) ensures s.table[j].result.None? {
        assert EntryOk(s.log, s.table[j]);
      }
    }
    hide Inv;
  }

  lemma HandleStaysSettled(s: System, slot: nat)
    requires Inv(s) && Settled(s) && !s.crashed && s.queue != []
    ensures Settled(HandleNext(s, slot, true))
  {
    if s.queue[0].ExpectCmd? { ExpectFindsHold(s); }
    hide Inv;
  }

  lemma SettledStep(s: System, m: Move)
    requires Inv(s) && Settled(s) && !s.crashed && Prompt(m)
    ensures Settled(Do(s, m))
  {
    hide HandleNext, Inv;
    if m.Handle? && s.queue != [] { HandleStaysSettled(s, m.slot); }
  }

  lemma {:induction false} WellBehavedNeverTrips(senders: nat, entries: nat, moves: seq<Move>)
    requires WellBehaved(Init(senders, entries), moves)
    ensures NeverTrips(Init(senders, entries), moves) && Settled(Exec(Init(senders, entries), moves))
  {
    hide Do, Inv, Trips, Prompt, FirstAnswer;
    if moves != [] {
      var before, m := moves[..|moves| - 1], moves[|moves| - 1];
      WellBehavedNeverTrips(senders, entries, before);
      RunKeepsInv(senders, entries, before);
      NoAssertionFailsIff(senders, entries, before);
      SettledNeverTrips(Exec(Init(senders, entries), before), m);
      SettledStep(Exec(Init(senders, entries), before), m);
    }
  }

  /** While the threadpool takes every task and peers answer each request at most once, no move
      trips, so none of the listener's assertions fires, in any run. */
  lemma {:induction false} PromptRunsNeverCrash(senders: nat, entries: nat, moves: seq<Move>)
    requires WellBehaved(Init(senders, entries), moves)
    ensures !Exec(Init(senders, entries), moves).crashed
  {
    WellBehavedNeverTrips(senders, entries, moves);
    NoAssertionFailsIff(senders, entries, moves);
  }
}
