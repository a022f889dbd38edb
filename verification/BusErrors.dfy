/** What a socket error does to requests on other sockets. `set_error_for_socket` marks every
    HOLD in the table, also those of healthy sockets (src/lib/bus/listener_io.c:263-302). */
module BusErrors {
  import opened RxTable
  import opened BusProtocol
  import opened BusAssertions

  /** History of a run: the sockets that failed, and the requests whose HOLD was in the table
      when some socket did. */
  datatype Watch = Watch(errored: set<int>, marked: set<Key>)

  function KeyOn(e: RxInfo): Key {
    match e
    case Inactive(_) => Key(0, 0)
    case Hold(fd, seqId, _, _, _) => Key(fd, seqId)
    case Expect(b, _, _, _) => KeyOf(b)
  }

  function HeldKeys(t: seq<RxInfo>): set<Key> {
    set j | 0 <= j < |t| && t[j].Hold? :: KeyOn(t[j])
  }

  predicate Strikes(s: System, m: Move) {
    !s.crashed && m.SocketError? && m.err in {PollHup, PollErr, ReadFailure}
  }

  function See(w: Watch, s: System, m: Move): Watch {
    if Strikes(s, m) then Watch(w.errored + {m.fd}, w.marked + HeldKeys(s.table)) else w
  }

  function Watched(s: System, moves: seq<Move>): Watch {
    if moves == [] then Watch({}, {})
    else See(Watched(s, moves[..|moves| - 1]), Exec(s, moves[..|moves| - 1]), moves[|moves| - 1])
  }

  // ---------------------------------------------------------------------------
  // The invariant

  /** Statuses that only the listener gives. */
  predicate FromListener(st: Status) { st == Success || st == RxTimeout || st == RxFailure }

  predicate Blamed(w: Watch, k: Key) { k.fd in w.errored || k in w.marked }

  /** A HOLD carries an error exactly if it was marked; a marked EXPECT has failed already. */
  predicate EntryCause(w: Watch, e: RxInfo) {
    match e
    case Inactive(_) => true
    case Hold(fd, seqId, _, _, error) => error != NoError <==> Key(fd, seqId) in w.marked
    case Expect(b, error, _, _) =>
      && (error in {PollHup, PollErr, ReadFailure} || b.status == RxFailure ==> Blamed(w, KeyOf(b)))
      && (KeyOf(b) in w.marked ==> b.status == RxFailure && error != NoError)
  }

  predicate BoxCause(w: Watch, b: Box) {
    && (b.status == RxFailure ==> Blamed(w, KeyOf(b)))
    && (KeyOf(b) in w.marked ==> b.status != Success && b.status != RxTimeout)
  }

  predicate SenderCause(w: Watch, p: Sender) {
    match p
    case Boxed(b) => KeyOf(b) !in w.marked
    case Failing(b) => !FromListener(b.status)
    case _ => true
  }

  predicate CmdCause(w: Watch, c: Cmd) { c.HoldCmd? ==> c.key !in w.marked }

  ghost predicate Causes(s: System, w: Watch) {
    && (forall i | 0 <= i < |s.senders| :: SenderCause(w, s.senders[i]))
    && (forall i | 0 <= i < |s.queue| :: CmdCause(w, s.queue[i]))
    && (forall i | 0 <= i < |s.table| :: EntryCause(w, s.table[i]))
    && (forall i | 0 <= i < |s.pool| :: BoxCause(w, s.pool[i]))
    && (forall i | 0 <= i < |s.called| :: BoxCause(w, s.called[i]))
    && (forall k | k in w.marked :: Used(s, k))
  }

  /** Once the listener has finished with a request, it has forgotten it. */
  ghost predicate Over(s: System) {
    && (forall i | 0 <= i < |s.pool| && FromListener(s.pool[i].status) :: Tokens(s, KeyOf(s.pool[i])) == 0)
    && (forall i | 0 <= i < |s.called| && FromListener(s.called[i].status) :: Tokens(s, KeyOf(s.called[i])) == 0)
  }

  // ---------------------------------------------------------------------------
  // One entry

  predicate OutcomeCause(w: Watch, o: Outcome) {
    match o
    case Keep(e) => EntryCause(w, e)
    case Deliver(b) => BoxCause(w, b)
    case _ => true
  }

  lemma OutcomesCause(w: Watch, e: RxInfo, box: Box, msg: Msg, accept: bool, o: Oracle)
    requires EntryCause(w, e)
    ensures OutcomeCause(w, OnTick(e, o))
    ensures !e.Inactive? ==> OutcomeCause(w, OnResponse(e, msg, accept))
    ensures e.Hold? && Matches(e, box.fd, box.seqId) && box.status == RequestComplete ==>
          OutcomeCause(w, OnExpect(e, box, accept))
  {
  }

  lemma SettleCauses(s: System, w: Watch, j: nat, o: Outcome)
    requires Causes(s, w) && j < |s.table| && OutcomeCause(w, o)
    ensures Causes(Settle(s, j, o), w)
  {
  }

  // ---------------------------------------------------------------------------
  // Moves keep the causes

  lemma TickCauses(s: System, w: Watch, j: nat, o: Oracle)
    requires Causes(s, w) && j < |s.table|
    ensures Causes(TickOne(s, j, o), w)
  {
    hide OnTick, OnResponse, OnExpect;
    OutcomesCause(w, s.table[j], NO_BOX, NO_MSG, true, o);
    SettleCauses(s, w, j, OnTick(s.table[j], o));
  }

  lemma ReceiveCauses(s: System, w: Watch, msg: Msg, accept: bool)
    requires Causes(s, w)
    ensures Causes(Receive(s, msg, accept), w)
  {
    hide OnTick, OnResponse, OnExpect;
    var t := s.(log := s.log.(arrived := s.log.arrived + {msg}));
    assert Causes(t, w);
    var found := Find(t.table, msg.fd, msg.seqId);
    if found.Some? {
      OutcomesCause(w, t.table[found.value], NO_BOX, msg, accept, Oracle(true, true));
      SettleCauses(t, w, found.value, OnResponse(t.table[found.value], msg, accept));
    }
  }

  lemma ExpectCauses(s: System, w: Watch, box: Box, accept: bool)
    requires Causes(s, w) && box.status == RequestComplete
    ensures Causes(HandleExpect(s, box, accept), w)
  {
    hide OnTick, OnResponse, OnExpect;
    var found := Find(s.table, box.fd, box.seqId);
    if found.Some? && s.table[found.value].Hold? {
      OutcomesCause(w, s.table[found.value], box, NO_MSG, accept, Oracle(true, true));
      SettleCauses(s, w, found.value, OnExpect(s.table[found.value], box, accept));
    }
  }

  lemma HoldCauses(s: System, w: Watch, c: Cmd, slot: nat)
    requires Causes(s, w) && c.HoldCmd? && c.key !in w.marked
    requires slot < |s.table| && s.table[slot].Inactive? ==> s.table[slot].residue == NoError
    ensures Causes(HandleHold(s, c, slot), w)
  {
  }

  lemma HandleCauses(s: System, w: Watch, slot: nat, accept: bool)
    requires Inv(s) && Causes(s, w) && s.queue != []
    ensures Causes(HandleNext(s, slot, accept), w)
  {
    var c, t := s.queue[0], s.(queue := s.queue[1..]);
    assert CmdOk(s.log, c) && CmdCause(w, c);
    if slot < |s.table| { assert EntryOk(s.log, s.table[slot]); }
    assert Causes(t, w);
    hide HandleHold, HandleExpect, Inv;
    if c.HoldCmd? { HoldCauses(t, w, c, slot); } else { ExpectCauses(t, w, c.box, accept); }
  }

  /** A request held in the table is not queued, not boxed, not expected, and not over. */
  lemma HeldOnlyThere(s: System, j: nat)
    requires Inv(s) && Over(s) && j < |s.table| && s.table[j].Hold?
    ensures var k := KeyOn(s.table[j]);
            && Tokens(s, k) == 1 && Used(s, k)
            && (forall i | 0 <= i < |s.queue| && s.queue[i].HoldCmd? :: s.queue[i].key != k)
            && (forall i | 0 <= i < |s.senders| && s.senders[i].Boxed? :: KeyOf(s.senders[i].box) != k)
            && (forall i | 0 <= i < |s.table| && s.table[i].Expect? :: KeyOf(s.table[i].box) != k)
            && (forall i | 0 <= i < |s.pool| && FromListener(s.pool[i].status) :: KeyOf(s.pool[i]) != k)
            && (forall i | 0 <= i < |s.called| && FromListener(s.called[i].status) :: KeyOf(s.called[i]) != k)
  {
    var k := KeyOn(s.table[j]);
    TallyHas(s.table, j, EntryKnows, k);
    assert Tokens(s, k) <= 1;
    forall i | 0 <= i < |s.queue| && s.queue[i].HoldCmd? ensures s.queue[i].key != k {
      TallyHas(s.queue, i, CmdHolds, k);
    }
    forall i | 0 <= i < |s.senders| && s.senders[i].Boxed? ensures KeyOf(s.senders[i].box) != k {
      assert SenderMeets(s, s.senders[i]);
    }
    forall i | 0 <= i < |s.table| && s.table[i].Expect? ensures KeyOf(s.table[i].box) != k {
      if KeyOf(s.table[i].box) == k { OneEntryPerKey(s, i, j, k); }
    }
  }

  lemma ErrorCauses(s: System, w: Watch, fd: int, err: RxError)
    requires Inv(s) && Over(s) && Causes(s, w) && Strikes(s, SocketError(fd, err))
    ensures Causes(Do(s, SocketError(fd, err)), See(w, s, SocketError(fd, err)))
  {
    var t, w' := Do(s, SocketError(fd, err)), See(w, s, SocketError(fd, err));
    forall k | k in HeldKeys(s.table)
      ensures Used(s, k)
      ensures forall i | 0 <= i < |s.queue| && s.queue[i].HoldCmd? :: s.queue[i].key != k
      ensures forall i | 0 <= i < |s.senders| && s.senders[i].Boxed? :: KeyOf(s.senders[i].box) != k
      ensures forall i | 0 <= i < |s.table| && s.table[i].Expect? :: KeyOf(s.table[i].box) != k
      ensures forall i | 0 <= i < |s.pool| && FromListener(s.pool[i].status) :: KeyOf(s.pool[i]) != k
      ensures forall i | 0 <= i < |s.called| && FromListener(s.called[i].status) :: KeyOf(s.called[i]) != k
    {
      var j :| 0 <= j < |s.table| && s.table[j].Hold? && KeyOn(s.table[j]) == k;
      HeldOnlyThere(s, j);
    }
    hide Inv, Over;
    forall i | 0 <= i < |t.table| ensures EntryCause(w', t.table[i]) {
      assert EntryCause(w, s.table[i]);
      if s.table[i].Hold? { assert KeyOn(s.table[i]) in HeldKeys(s.table); }
    }
    forall i | 0 <= i < |t.pool| ensures BoxCause(w', t.pool[i]) { assert BoxCause(w, s.pool[i]); }
    forall i | 0 <= i < |t.called| ensures BoxCause(w', t.called[i]) { assert BoxCause(w, s.called[i]); }
    forall i | 0 <= i < |t.senders| ensures SenderCause(w', t.senders[i]) { assert SenderCause(w, s.senders[i]); }
    forall i | 0 <= i < |t.queue| ensures CmdCause(w', t.queue[i]) { assert CmdCause(w, s.queue[i]); }
  }

  lemma SenderCauses(s: System, w: Watch, m: Move)
    requires Causes(s, w) && !(m.Handle? || m.Respond? || m.TickEntry? || m.SocketError?)
    ensures Causes(Do(s, m), w)
  {
  }

  lemma StepCauses(s: System, w: Watch, m: Move)
    requires Inv(s) && Over(s) && Causes(s, w)
    ensures Causes(Do(s, m), See(w, s, m))
  {
    hide Inv, Over, Causes, HandleNext, Receive, TickOne;
    match m
    case Handle(slot, accept) => if s.queue != [] { HandleCauses(s, w, slot, accept); }
    case Respond(msg, accept) => ReceiveCauses(s, w, msg, accept);
    case TickEntry(j, o) => if j < |s.table| { TickCauses(s, w, j, o); }
    case SocketError(fd, err) => if Strikes(s, m) { ErrorCauses(s, w, fd, err); }
    case _ => SenderCauses(s, w, m);
  }

  // ---------------------------------------------------------------------------
  // Moves keep finished requests forgotten

  lemma SameOver(s: System, t: System)
    requires Over(s) && t.pool == s.pool && t.called == s.called
    requires forall k :: Tokens(t, k) <= Tokens(s, k)
    ensures Over(t)
  {
  }

  lemma SettleOver(s: System, j: nat, o: Outcome)
    requires TokensOk(s) && Over(s) && j < |s.table|
    requires o.Deliver? ==> Matches(s.table[j], o.box.fd, o.box.seqId)
    requires o.Keep? ==> forall k :: EntryKnows(o.entry, k) <= EntryKnows(s.table[j], k)
    ensures Over(Settle(s, j, o))
  {
    var t := Settle(s, j, o);
    forall k ensures Tokens(t, k) <= Tokens(s, k) {
      SettleTokens(s, j, o, k);
      TallyHas(s.table, j, EntryKnows, k);
    }
    if o.Deliver? {
      SettleTokens(s, j, o, KeyOf(o.box));
      assert Tokens(s, KeyOf(o.box)) <= 1;
    }
    hide Tokens, TokensOk;
  }

  lemma TickOver(s: System, j: nat, o: Oracle)
    requires TokensOk(s) && Over(s) && j < |s.table|
    ensures Over(TickOne(s, j, o))
  {
    SettleOver(s, j, OnTick(s.table[j], o));
    forall k ensures Tokens(TickOne(s, j, o), k) == Tokens(Settle(s, j, OnTick(s.table[j], o)), k) {}
    hide Tokens, OnTick, TokensOk;
  }

  lemma ReceiveOver(s: System, msg: Msg, accept: bool)
    requires TokensOk(s) && Over(s)
    ensures Over(Receive(s, msg, accept))
  {
    var t := s.(log := s.log.(arrived := s.log.arrived + {msg}));
    forall k ensures Tokens(t, k) == Tokens(s, k) {}
    var found := Find(t.table, msg.fd, msg.seqId);
    if found.Some? { SettleOver(t, found.value, OnResponse(t.table[found.value], msg, accept)); }
    hide Tokens, TokensOk, OnResponse;
  }

  lemma HandleOver(s: System, slot: nat, accept: bool)
    requires Inv(s) && !s.crashed && Over(s) && s.queue != []
    ensures Over(HandleNext(s, slot, accept))
  {
    if s.queue[0].HoldCmd? { HandleHoldOver(s, slot, accept); } else { HandleExpectOver(s, slot, accept); }
  }

  lemma HandleHoldOver(s: System, slot: nat, accept: bool)
    requires Inv(s) && !s.crashed && Over(s) && s.queue != [] && s.queue[0].HoldCmd?
    ensures Over(HandleNext(s, slot, accept))
  {
    var t, u := HandleNext(s, slot, accept), PlaceHold(s.(queue := s.queue[1..]), s.queue[0], slot);
    forall k ensures Tokens(t, k) <= Tokens(s, k) {
      PlaceTokens(s, slot, k);
      assert Tokens(t, k) == Tokens(u, k);
    }
    hide Inv, Tokens;
    SameOver(s, t);
  }

  lemma HandleExpectOver(s: System, slot: nat, accept: bool)
    requires Inv(s) && !s.crashed && Over(s) && s.queue != [] && s.queue[0].ExpectCmd?
    ensures Over(HandleNext(s, slot, accept))
  {
    var b, t := s.queue[0].box, s.(queue := s.queue[1..]);
    ExpectFindsHold(s);
    forall k ensures Tokens(t, k) == Tokens(s, k) { PopTokens(s, k); }
    SameOver(s, t);
    assert TokensOk(t);
    var found := Find(t.table, b.fd, b.seqId);
    if found.Some? { SettleOver(t, found.value, OnExpect(t.table[found.value], b, accept)); }
    assert HandleNext(s, slot, accept) == HandleExpect(t, b, accept);
    if found.None? { SameOver(t, HandleExpect(t, b, accept)); }
  }

  /** A request that is still boxed is not over. */
  lemma BoxedNotOver(s: System, i: nat, b: Box)
    requires Inv(s) && i < |s.senders| && s.senders[i].Boxed? && (b in s.pool || b in s.called)
    ensures KeyOf(b) != KeyOf(s.senders[i].box)
  {
    var id := s.senders[i].box.id;
    assert Places(s, id) <= 1;
    TallyHas(s.senders, i, SenderHas, id);
    assert SenderOk(s.log, s.senders[i]);
    if b in s.pool {
      var j :| 0 <= j < |s.pool| && s.pool[j] == b;
      TallyHas(s.pool, j, BoxIs, id);
      assert FinishedOk(s.log, s.pool[j]);
    } else {
      var j :| 0 <= j < |s.called| && s.called[j] == b;
      TallyHas(s.called, j, BoxIs, id);
      assert FinishedOk(s.log, s.called[j]);
    }
    KeysDiffer(s, b, s.senders[i].box);
  }

  lemma QueueHoldOver(s: System, i: nat)
    requires Inv(s) && Over(s)
    ensures Over(Do(s, QueueHold(i)))
  {
    var t := Do(s, QueueHold(i));
    if t != s {
      forall k ensures Tokens(t, k) == Tokens(s, k) + if k == KeyOf(s.senders[i].box) then 1 else 0 {
        TallyAppend(s.queue, t.queue[|s.queue|], CmdHolds, k);
      }
      forall j | 0 <= j < |s.pool| ensures KeyOf(s.pool[j]) != KeyOf(s.senders[i].box) {
        BoxedNotOver(s, i, s.pool[j]);
      }
      forall j | 0 <= j < |s.called| ensures KeyOf(s.called[j]) != KeyOf(s.senders[i].box) {
        BoxedNotOver(s, i, s.called[j]);
      }
      hide Inv, Tokens;
    }
  }

  lemma ErrorOver(s: System, fd: int, err: RxError)
    requires Over(s)
    ensures Over(Do(s, SocketError(fd, err)))
  {
    var t := Do(s, SocketError(fd, err));
    forall k ensures Tokens(t, k) == Tokens(s, k) { TallyPointwise(s.table, t.table, EntryKnows, k); }
    SameOver(s, t);
  }

  lemma SenderTokens(s: System, m: Move, k: Key)
    requires !(m.Handle? || m.Respond? || m.TickEntry? || m.SocketError? || m.QueueHold?)
    ensures Tokens(Do(s, m), k) == Tokens(s, k)
  {
    var t := Do(s, m);
    if m.QueueExpect? && t != s { TallyAppend(s.queue, t.queue[|s.queue|], CmdHolds, k); }
  }

  lemma SenderOver(s: System, w: Watch, m: Move)
    requires Over(s) && Causes(s, w)
    requires !(m.Handle? || m.Respond? || m.TickEntry? || m.SocketError? || m.QueueHold?)
    ensures Over(Do(s, m))
  {
    forall k ensures Tokens(Do(s, m), k) == Tokens(s, k) { SenderTokens(s, m, k); }
    if m.FailureAccepted? && m.i < |s.senders| { assert SenderCause(w, s.senders[m.i]); }
    hide Tokens;
  }

  lemma StepOver(s: System, w: Watch, m: Move)
    requires Inv(s) && Over(s) && Causes(s, w)
    ensures Over(Do(s, m))
  {
    assert TokensOk(s);
    hide Inv, Over, Causes, HandleNext, Receive, TickOne, TokensOk;
    match m
    case Handle(slot, accept) => if !s.crashed && s.queue != [] { HandleOver(s, slot, accept); }
    case Respond(msg, accept) => ReceiveOver(s, msg, accept);
    case TickEntry(j, o) => if j < |s.table| { TickOver(s, j, o); }
    case SocketError(fd, err) => ErrorOver(s, fd, err);
    case QueueHold(i) => QueueHoldOver(s, i);
    case _ => SenderOver(s, w, m);
  }

  // ---------------------------------------------------------------------------
  // Whole runs

  lemma {:induction false} RunCauses(senders: nat, entries: nat, moves: seq<Move>)
    ensures var s0 := Init(senders, entries); Causes(Exec(s0, moves), Watched(s0, moves)) && Over(Exec(s0, moves))
  {
    if moves != [] {
      hide Do, Inv, Causes, Over, See;
      var s0, before, m := Init(senders, entries), moves[..|moves| - 1], moves[|moves| - 1];
      RunCauses(senders, entries, before);
      RunKeepsInv(senders, entries, before);
      StepCauses(Exec(s0, before), Watched(s0, before), m);
      StepOver(Exec(s0, before), Watched(s0, before), m);
    }
  }

  /** In every run: a callback that reports a receive failure has its own socket failed, or had
      its HOLD in the table when another one did; and a request that was marked that way never
      ends in success, nor in a timeout. */
  lemma FailuresHaveCauses(senders: nat, entries: nat, moves: seq<Move>)
    ensures var s, w := Exec(Init(senders, entries), moves), Watched(Init(senders, entries), moves);
            forall i | 0 <= i < |s.called| ::
              var b := s.called[i];
              && (b.status == RxFailure ==> b.fd in w.errored || KeyOf(b) in w.marked)
              && (KeyOf(b) in w.marked ==> b.status != Success && b.status != RxTimeout)
  {
    RunCauses(senders, entries, moves);
    var s, w := Exec(Init(senders, entries), moves), Watched(Init(senders, entries), moves);
    forall i | 0 <= i < |s.called| ensures BoxCause(w, s.called[i]) {}
  }

  /** Error isolation, exactly: in every run, a request whose own socket never failed and whose
      callback carries the listener's verdict is failed by the errors of other sockets if and
      only if its HOLD was in the table at one of them. */
  lemma ErrorIsolatesIff(senders: nat, entries: nat, moves: seq<Move>)
    ensures var s, w := Exec(Init(senders, entries), moves), Watched(Init(senders, entries), moves);
            forall i | 0 <= i < |s.called| && s.called[i].fd !in w.errored && FromListener(s.called[i].status) ::
              s.called[i].status == RxFailure <==> KeyOf(s.called[i]) in w.marked
  {
    FailuresHaveCauses(senders, entries, moves);
  }
}
