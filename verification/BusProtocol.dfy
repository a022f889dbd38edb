/** The request/response protocol across threads: any number of senders inside
    Bus_SendRequest, the listener's command pipe, its rx_info table, and the threadpool
    (src/lib/bus/bus.c, send.c, send_helper.c, listener*.c). A run is any sequence of moves. */
module BusProtocol {
  import opened Wrappers
  import opened RxTable

  /** A request is known to the listener by its socket and sequence ID. */
  datatype Key = Key(fd: int, seqId: int)

  function KeyOf(b: Box): Key { Key(b.fd, b.seqId) }

  /** Where a thread is inside Bus_SendRequest. `acked`: the listener has handled the HOLD
      and answered on the completion pipe. */
  datatype Sender =
    | Idle
    | Boxed(box: Box)
    | Holding(box: Box, acked: bool)
    | Writing(box: Box)
    | Expecting(box: Box)
    | Failing(box: Box)

  /** A command in the listener's pipe; a HOLD names the request waiting for its answer. */
  datatype Cmd = HoldCmd(key: Key, timeout: int, sender: nat, id: nat) | ExpectCmd(box: Box)

  /** History: `made[id]` is each box as allocated, `arrived` every response unpacked. */
  datatype Log = Log(made: seq<Box>, arrived: set<Msg>)

  /** `called`: boxes whose callback ran; `rejected`: boxes freed because Bus_SendRequest
      returned false; `dropped`: boxes lost in expect_response's last arm; `largest`: the
      largest sequence ID sent on each socket. History: `log`, and `lost`, the keys whose HOLD
      found the table full or timed out before the EXPECT was handled. */
  datatype System = System(
    senders: seq<Sender>, queue: seq<Cmd>, table: seq<RxInfo>, pool: seq<Box>,
    called: seq<Box>, rejected: seq<Box>, dropped: seq<Box>,
    largest: map<int, int>,
    log: Log, lost: set<Key>, crashed: bool)

  datatype Move =
    | Start(i: nat, fd: int, seqId: int, timeout: int)  // box_msg accepts the request
    | Reject(i: nat)                      // clock failure, HOLD not enqueued, or completion poll failed
    | QueueHold(i: nat)
    | HoldDone(i: nat)
    | Sent(i: nat)                        // the last byte has been written
    | SendFails(i: nat, status: Status)   // Send_HandleFailure is entered
    | QueueExpect(i: nat)
    | FailureAccepted(i: nat)             // Send_HandleFailure's retry loop ends
    | Handle(slot: nat, accept: bool)     // the listener handles the oldest command
    | Respond(msg: Msg, accept: bool)
    | SocketError(fd: int, err: RxError)
    | TickEntry(j: nat, o: Oracle)
    | Execute(k: nat)                     // a worker runs box_execute_cb

  const DEFAULT_TIMEOUT := 10

  function Init(senders: nat, entries: nat): System {
    System(seq(senders, _ => Idle), [], seq(entries, _ => RELEASED), [], [], [], [], map[], Log([], {}), {}, false)
  }

  /** box_msg's check: sequence IDs on a socket must strictly increase. */
  predicate Monotonic(s: System, fd: int, seqId: int) {
    fd in s.largest ==> s.largest[fd] < seqId
  }

  /** Store the outcome of a handler for entry j. */
  function Settle(s: System, j: nat, o: Outcome): System
    requires j < |s.table|
  {
    match o
    case Keep(e) => s.(table := s.table[j := e])
    case Deliver(b) => s.(table := s.table[j := RELEASED], pool := s.pool + [b])
    case Expire => s.(table := s.table[j := RELEASED])
    case Crash => s.(crashed := true)
  }

  predicate Full(t: seq<RxInfo>) { forall j | 0 <= j < |t| :: !t[j].Inactive? }

  /** The freelist hands out some inactive entry, as long as there is one. */
  predicate MayTake(t: seq<RxInfo>, slot: nat) { (slot < |t| && t[slot].Inactive?) || Full(t) }

  /** hold_response with the entry taken from the freelist, or none left. */
  function PlaceHold(s: System, c: Cmd, slot: nat): System
    requires c.HoldCmd?
  {
    if slot < |s.table| && s.table[slot].Inactive? then
      s.(table := s.table[slot := OnHold(s.table[slot], c.key.fd, c.key.seqId, c.timeout)])
    else s.(lost := s.lost + {c.key})
  }

  /** ListenerCmd_NotifyCaller answers the request the command came from. */
  function Acknowledge(s: System, c: Cmd): System
    requires c.HoldCmd?
  {
    if c.sender < |s.senders| && s.senders[c.sender].Holding? && s.senders[c.sender].box.id == c.id
    then s.(senders := s.senders[c.sender := Holding(s.senders[c.sender].box, true)]) else s
  }

  function HandleHold(s: System, c: Cmd, slot: nat): System
    requires c.HoldCmd?
  {
    Acknowledge(PlaceHold(s, c, slot), c)
  }

  /** expect_response: convert the HOLD, assert against a second EXPECT, or drop the box. */
  function HandleExpect(s: System, box: Box, accept: bool): System {
    match Find(s.table, box.fd, box.seqId)
    case Some(j) =>
      if s.table[j].Hold? then Settle(s, j, OnExpect(s.table[j], box, accept)) else s.(crashed := true)
    case None => s.(dropped := s.dropped + [box])
  }

  /** The listener takes the oldest command from its pipe. */
  function HandleNext(s: System, slot: nat, accept: bool): System
    requires s.queue != []
  {
    var c, t := s.queue[0], s.(queue := s.queue[1..]);
    var r := if c.HoldCmd? then HandleHold(t, c, slot) else HandleExpect(t, c.box, accept);
    if r.crashed then s.(crashed := true) else r
  }

  /** process_unpacked_message: a response that no entry waits for is discarded. */
  function Receive(s: System, msg: Msg, accept: bool): System {
    var t := s.(log := s.log.(arrived := s.log.arrived + {msg}));
    match Find(t.table, msg.fd, msg.seqId)
    case Some(j) => Settle(t, j, OnResponse(t.table[j], msg, accept))
    case None => t
  }

  /** One entry's share of tick_handler. */
  function TickOne(s: System, j: nat, o: Oracle): System
    requires j < |s.table|
  {
    var out := OnTick(s.table[j], o);
    Settle(s, j, out).(lost := if out.Expire? && s.table[j].Hold?
                               then s.lost + {Key(s.table[j].fd, s.table[j].seqId)} else s.lost)
  }

  /** A move as it stands; a move that is not possible leaves the state alone. */
  function Do(s: System, m: Move): System {
    if s.crashed then s else
    match m
    case Start(i, fd, seqId, timeout) =>
      if i < |s.senders| && s.senders[i].Idle? && Monotonic(s, fd, seqId) && 0 <= timeout < 0x1_0000 then
        var b := Box(|s.log.made|, fd, seqId, if timeout == 0 then DEFAULT_TIMEOUT else timeout, Undefined, None);
        s.(senders := s.senders[i := Boxed(b)],
           log := s.log.(made := s.log.made + [b]), largest := s.largest[fd := seqId])
      else s
    case Reject(i) =>
      if i < |s.senders| && (s.senders[i].Boxed? || s.senders[i].Holding?) then
        s.(senders := s.senders[i := Idle], rejected := s.rejected + [s.senders[i].box])
      else s
    case QueueHold(i) =>
      if i < |s.senders| && s.senders[i].Boxed? then
        var b := s.senders[i].box;
        s.(senders := s.senders[i := Holding(b, false)],
           queue := s.queue + [HoldCmd(KeyOf(b), HoldTimeout(b.timeout), i, b.id)])
      else s
    case HoldDone(i) =>
      if i < |s.senders| && s.senders[i].Holding? && s.senders[i].acked then
        s.(senders := s.senders[i := Writing(s.senders[i].box)])
      else s
    case Sent(i) =>
      if i < |s.senders| && s.senders[i].Writing? then
        s.(senders := s.senders[i := Expecting(s.senders[i].box.(status := RequestComplete))])
      else s
    case SendFails(i, status) =>
      if i < |s.senders| && (s.senders[i].Writing? || s.senders[i].Expecting?)
         && status in {TxTimeout, TxFailure, UnregisteredSocket, TxTimeoutNotifyingListener, TimestampError} then
        s.(senders := s.senders[i := Failing(s.senders[i].box.(status := status, response := None))])
      else s
    case QueueExpect(i) =>
      if i < |s.senders| && s.senders[i].Expecting? then
        s.(senders := s.senders[i := Idle], queue := s.queue + [ExpectCmd(s.senders[i].box)])
      else s
    case FailureAccepted(i) =>
      if i < |s.senders| && s.senders[i].Failing? then
        s.(senders := s.senders[i := Idle], pool := s.pool + [s.senders[i].box])
      else s
    case Handle(slot, accept) =>
      if s.queue == [] || (s.queue[0].HoldCmd? && !MayTake(s.table, slot)) then s else HandleNext(s, slot, accept)
    case Respond(msg, accept) => Receive(s, msg, accept)
    case SocketError(fd, err) =>
      if err in {PollHup, PollErr, ReadFailure} then
        s.(table := ErrorTable(s.table, fd, err))
      else s
    case TickEntry(j, o) => if j < |s.table| then TickOne(s, j, o) else s
    case Execute(k) =>
      if k < |s.pool| then s.(pool := s.pool[..k] + s.pool[k + 1..], called := s.called + [s.pool[k]]) else s
  }

  function Exec(s: System, moves: seq<Move>): System {
    if moves == [] then s else Do(Exec(s, moves[..|moves| - 1]), moves[|moves| - 1])
  }

  // ---------------------------------------------------------------------------
  // Tallies: how often k occurs across a sequence whose elements hold it `w` times

  function Tally<T, K>(xs: seq<T>, w: (T, K) -> nat, k: K): nat {
    if xs == [] then 0 else w(xs[0], k) + Tally(xs[1..], w, k)
  }

  lemma {:induction false} TallyConcat<T, K>(xs: seq<T>, ys: seq<T>, w: (T, K) -> nat, k: K)
    ensures Tally(xs + ys, w, k) == Tally(xs, w, k) + Tally(ys, w, k)
  {
    if xs == [] {
      assert xs + ys == ys;
    } else {
      TallyConcat(xs[1..], ys, w, k);
      assert (xs + ys)[1..] == xs[1..] + ys;
    }
  }

  lemma TallySplit<T, K>(xs: seq<T>, i: nat, w: (T, K) -> nat, k: K)
    requires i < |xs|
    ensures Tally(xs, w, k) == Tally(xs[..i], w, k) + w(xs[i], k) + Tally(xs[i + 1..], w, k)
  {
    TallyConcat(xs[..i], xs[i..], w, k);
    assert xs[..i] + xs[i..] == xs && xs[i..][1..] == xs[i + 1..];
  }

  lemma TallyUpdate<T, K>(xs: seq<T>, i: nat, x: T, w: (T, K) -> nat, k: K)
    requires i < |xs|
    ensures Tally(xs[i := x], w, k) == Tally(xs, w, k) - w(xs[i], k) + w(x, k)
  {
    TallySplit(xs, i, w, k);
    TallySplit(xs[i := x], i, w, k);
    assert xs[i := x][..i] == xs[..i] && xs[i := x][i + 1..] == xs[i + 1..];
  }

  lemma TallyAppend<T, K>(xs: seq<T>, x: T, w: (T, K) -> nat, k: K)
    ensures Tally(xs + [x], w, k) == Tally(xs, w, k) + w(x, k)
  {
    TallySplit(xs + [x], |xs|, w, k);
    assert (xs + [x])[..|xs|] == xs;
  }

  lemma TallyRemove<T, K>(xs: seq<T>, i: nat, w: (T, K) -> nat, k: K)
    requires i < |xs|
    ensures Tally(xs[..i] + xs[i + 1..], w, k) == Tally(xs, w, k) - w(xs[i], k)
  {
    TallySplit(xs, i, w, k);
    TallyConcat(xs[..i], xs[i + 1..], w, k);
  }

  lemma {:induction false} TallyPointwise<T, K>(xs: seq<T>, ys: seq<T>, w: (T, K) -> nat, k: K)
    requires |xs| == |ys| && forall i | 0 <= i < |xs| :: w(xs[i], k) == w(ys[i], k)
    ensures Tally(xs, w, k) == Tally(ys, w, k)
  {
    if xs != [] { TallyPointwise(xs[1..], ys[1..], w, k); }
  }

  lemma {:induction false} TallyEmpty<T, K>(xs: seq<T>, w: (T, K) -> nat, k: K)
    requires forall i | 0 <= i < |xs| :: w(xs[i], k) == 0
    ensures Tally(xs, w, k) == 0
  {
    if xs != [] { TallyEmpty(xs[1..], w, k); }
  }

  lemma TallyHas<T, K>(xs: seq<T>, i: nat, w: (T, K) -> nat, k: K)
    requires i < |xs|
    ensures w(xs[i], k) <= Tally(xs, w, k)
  {
    TallySplit(xs, i, w, k);
  }

  /** Two places that hold k make it occur twice. */
  lemma TallyTwice<T, K>(xs: seq<T>, i: nat, j: nat, w: (T, K) -> nat, k: K)
    requires i < j < |xs|
    ensures Tally(xs, w, k) >= w(xs[i], k) + w(xs[j], k)
  {
    TallySplit(xs, i, w, k);
    TallyHas(xs[i + 1..], j - i - 1, w, k);
  }

  // ---------------------------------------------------------------------------
  // Where the boxes are

  function BoxIs(b: Box, id: nat): nat { if b.id == id then 1 else 0 }

  function SenderHas(p: Sender, id: nat): nat { if !p.Idle? && p.box.id == id then 1 else 0 }

  function CmdHas(c: Cmd, id: nat): nat { if c.ExpectCmd? && c.box.id == id then 1 else 0 }

  function EntryHas(e: RxInfo, id: nat): nat { if e.Expect? && e.box.id == id then 1 else 0 }

  /** In how many places box `id` is: with a sender, in a queued EXPECT, in a table entry, in
      the threadpool, or gone because it was called back, rejected or dropped. */
  function Places(s: System, id: nat): nat {
    Tally(s.senders, SenderHas, id) + Tally(s.queue, CmdHas, id) + Tally(s.table, EntryHas, id)
    + Tally(s.pool, BoxIs, id) + Tally(s.called, BoxIs, id) + Tally(s.rejected, BoxIs, id)
    + Tally(s.dropped, BoxIs, id)
  }

  /** Each box ever made is in exactly one place, once. */
  ghost predicate SingleOwner(s: System) {
    forall id: nat :: Places(s, id) == if id < |s.log.made| then 1 else 0
  }

  function OutcomeHas(e: RxInfo, o: Outcome, id: nat): nat {
    match o
    case Keep(e') => EntryHas(e', id)
    case Deliver(b) => BoxIs(b, id)
    case Expire => 0
    case Crash => EntryHas(e, id)
  }

  lemma SettlePlaces(s: System, j: nat, o: Outcome, id: nat)
    requires j < |s.table|
    ensures Places(Settle(s, j, o), id) + EntryHas(s.table[j], id) == Places(s, id) + OutcomeHas(s.table[j], o, id)
  {
    match o
    case Keep(e) => TallyUpdate(s.table, j, e, EntryHas, id);
    case Deliver(b) =>
      TallyUpdate(s.table, j, RELEASED, EntryHas, id);
      TallyAppend(s.pool, b, BoxIs, id);
    case Expire => TallyUpdate(s.table, j, RELEASED, EntryHas, id);
    case Crash =>
  }

  lemma HandlePlaces(s: System, slot: nat, accept: bool, id: nat)
    requires !s.crashed && s.queue != []
    ensures Places(HandleNext(s, slot, accept), id) == Places(s, id)
  {
    var c, t := s.queue[0], s.(queue := s.queue[1..]);
    assert Places(s, id) == CmdHas(c, id) + Places(t, id);
    if c.HoldCmd? { HandleHoldPlaces(t, c, slot, id); } else { HandleExpectPlaces(t, c.box, accept, id); }
    assert Places(s.(crashed := true), id) == Places(s, id);
  }

  lemma HandleExpectPlaces(t: System, b: Box, accept: bool, id: nat)
    ensures var u := HandleExpect(t, b, accept); u.crashed || Places(u, id) == Places(t, id) + BoxIs(b, id)
  {
    hide Find;
    match Find(t.table, b.fd, b.seqId)
    case None => TallyAppend(t.dropped, b, BoxIs, id);
    case Some(j) => if t.table[j].Hold? { SettlePlaces(t, j, OnExpect(t.table[j], b, accept), id); }
  }

  lemma HandleHoldPlaces(t: System, c: Cmd, slot: nat, id: nat)
    requires c.HoldCmd?
    ensures Places(HandleHold(t, c, slot), id) == Places(t, id)
  {
    var u := PlaceHold(t, c, slot);
    assert Places(u, id) == Places(t, id) by {
      if slot < |t.table| && t.table[slot].Inactive? {
        TallyUpdate(t.table, slot, OnHold(t.table[slot], c.key.fd, c.key.seqId, c.timeout), EntryHas, id);
      }
    }
    if c.sender < |u.senders| && u.senders[c.sender].Holding? {
      TallyUpdate(u.senders, c.sender, Holding(u.senders[c.sender].box, true), SenderHas, id);
    }
  }

  lemma OutcomesKeepBox(e: RxInfo, msg: Msg, accept: bool, o: Oracle, id: nat)
    ensures OutcomeHas(e, OnTick(e, o), id) == EntryHas(e, id)
    ensures !e.Inactive? ==> OutcomeHas(e, OnResponse(e, msg, accept), id) == EntryHas(e, id)
  {
  }

  lemma ReceivePlaces(s: System, msg: Msg, accept: bool, id: nat)
    ensures Places(Receive(s, msg, accept), id) == Places(s, id)
  {
    hide OnResponse, OnTick;
    var t := s.(log := s.log.(arrived := s.log.arrived + {msg}));
    assert Places(t, id) == Places(s, id);
    var found := Find(t.table, msg.fd, msg.seqId);
    if found.Some? {
      OutcomesKeepBox(t.table[found.value], msg, accept, Oracle(true, true), id);
      SettlePlaces(t, found.value, OnResponse(t.table[found.value], msg, accept), id);
    }
  }

  lemma TickPlaces(s: System, j: nat, o: Oracle, id: nat)
    requires j < |s.table|
    ensures Places(TickOne(s, j, o), id) == Places(s, id)
  {
    hide OnTick, OnResponse;
    OutcomesKeepBox(s.table[j], Msg(0, 0, 0), true, o, id);
    SettlePlaces(s, j, OnTick(s.table[j], o), id);
  }

  lemma ListenerPlaces(s: System, m: Move, id: nat)
    requires m.Handle? || m.Respond? || m.SocketError? || m.TickEntry?
    ensures Places(Do(s, m), id) == Places(s, id)
  {
    hide HandleNext, Receive, TickOne, Places;
    if !s.crashed {
      match m
      case Handle(slot, accept) => if s.queue != [] { HandlePlaces(s, slot, accept, id); }
      case Respond(msg, accept) => ReceivePlaces(s, msg, accept, id);
      case SocketError(fd, err) => if err in {PollHup, PollErr, ReadFailure} { ErrorPlaces(s, fd, err, id); }
      case TickEntry(j, o) => if j < |s.table| { TickPlaces(s, j, o, id); }
    }
  }

  lemma ErrorPlaces(s: System, fd: int, err: RxError, id: nat)
    requires err in {PollHup, PollErr, ReadFailure}
    ensures Places(s.(table := ErrorTable(s.table, fd, err)), id) == Places(s, id)
  {
    TallyPointwise(s.table, ErrorTable(s.table, fd, err), EntryHas, id);
  }

  lemma SenderPlaces(s: System, m: Move, id: nat)
    requires !(m.Handle? || m.Respond? || m.SocketError? || m.TickEntry? || m.Execute?)
    ensures var s' := Do(s, m);
            Places(s', id) == Places(s, id) + (if |s'.log.made| > |s.log.made| && id == |s.log.made| then 1 else 0)
  {
    var s' := Do(s, m);
    if s' != s {
      TallyUpdate(s.senders, m.i, s'.senders[m.i], SenderHas, id);
      match m
      case Reject(i) => TallyAppend(s.rejected, s.senders[i].box, BoxIs, id);
      case QueueHold(i) => TallyAppend(s.queue, s'.queue[|s.queue|], CmdHas, id);
      case QueueExpect(i) => TallyAppend(s.queue, ExpectCmd(s.senders[i].box), CmdHas, id);
      case FailureAccepted(i) => TallyAppend(s.pool, s.senders[i].box, BoxIs, id);
      case _ =>
    }
  }

  lemma ExecutePlaces(s: System, m: Move, id: nat)
    requires m.Execute?
    ensures Places(Do(s, m), id) == Places(s, id)
  {
    if !s.crashed && m.k < |s.pool| {
      TallyRemove(s.pool, m.k, BoxIs, id);
      TallyAppend(s.called, s.pool[m.k], BoxIs, id);
    }
  }

  lemma MadeGrows(s: System, m: Move)
    ensures var s' := Do(s, m);
            s'.log.made == s.log.made || (m.Start? && |s'.log.made| == |s.log.made| + 1)
  {
  }

  /** Boxes are conserved: a move never duplicates or loses one, and only box_msg makes one. */
  lemma StepKeepsSingleOwner(s: System, m: Move)
    requires SingleOwner(s)
    ensures SingleOwner(Do(s, m))
  {
    var s' := Do(s, m);
    MadeGrows(s, m);
    hide Do, Places;
    forall id: nat ensures Places(s', id) == if id < |s'.log.made| then 1 else 0 {
      if m.Handle? || m.Respond? || m.SocketError? || m.TickEntry? { ListenerPlaces(s, m, id); }
      else if m.Execute? { ExecutePlaces(s, m, id); }
      else { SenderPlaces(s, m, id); }
    }
  }

  // ---------------------------------------------------------------------------
  // What the boxes carry

  /** A response that really arrived and acknowledges request k. */
  predicate Answers(l: Log, msg: Msg, k: Key) {
    msg in l.arrived && msg.fd == k.fd && msg.seqId == k.seqId
  }

  /** A box is the one allocated under its id, and says success only with its own response. */
  predicate Genuine(l: Log, b: Box) {
    && b.id < |l.made| && KeyOf(b) == KeyOf(l.made[b.id]) && b.timeout == l.made[b.id].timeout
    && (b.status == Success ==> b.response.Some? && Answers(l, b.response.value, KeyOf(b)))
  }

  predicate SenderOk(l: Log, p: Sender) {
    match p
    case Idle => true
    case Boxed(b) => Genuine(l, b) && b.status == Undefined
    case Holding(b, _) => Genuine(l, b) && b.status == Undefined
    case Writing(b) => Genuine(l, b) && b.status == Undefined
    case Expecting(b) => Genuine(l, b) && b.status == RequestComplete
    case Failing(b) => Genuine(l, b) && b.status !in {Undefined, RequestComplete, Success}
  }

  predicate CmdOk(l: Log, c: Cmd) {
    match c
    case HoldCmd(key, _, _, id) => id < |l.made| && key == KeyOf(l.made[id])
    case ExpectCmd(b) => Genuine(l, b) && b.status == RequestComplete
  }

  /** An inactive entry's union is cleared; a stored response belongs to the entry's request. */
  predicate EntryOk(l: Log, e: RxInfo) {
    match e
    case Inactive(residue) => residue == NoError
    case Hold(fd, seqId, _, result, error) =>
      (result.Some? ==> Answers(l, result.value, Key(fd, seqId))) && error != ReadyForDelivery && error != Done
    case Expect(b, error, result, _) =>
      && Genuine(l, b) && b.status != Undefined
      && (result.Some? ==> Answers(l, result.value, KeyOf(b))) && error != Done
      && (error == ReadyForDelivery ==> b.status != RequestComplete)
  }

  predicate FinishedOk(l: Log, b: Box) {
    Genuine(l, b) && b.status != Undefined && b.status != RequestComplete
  }

  ghost predicate BoxesOk(s: System) {
    && (forall i | 0 <= i < |s.senders| :: SenderOk(s.log, s.senders[i]))
    && (forall i | 0 <= i < |s.queue| :: CmdOk(s.log, s.queue[i]))
    && (forall i | 0 <= i < |s.table| :: EntryOk(s.log, s.table[i]))
    && (forall i | 0 <= i < |s.pool| :: FinishedOk(s.log, s.pool[i]))
    && (forall i | 0 <= i < |s.called| :: FinishedOk(s.log, s.called[i]))
  }

  predicate OutcomeOk(l: Log, o: Outcome) {
    match o
    case Keep(e) => EntryOk(l, e)
    case Deliver(b) => FinishedOk(l, b)
    case _ => true
  }

  /** Requests and responses that are on record stay on record. */
  lemma LogGrows(s: System, l: Log)
    requires BoxesOk(s) && s.log.made <= l.made && s.log.arrived <= l.arrived
    ensures BoxesOk(s.(log := l))
  {
    forall i | 0 <= i < |s.senders| ensures SenderOk(l, s.senders[i]) { assert SenderOk(s.log, s.senders[i]); }
    forall i | 0 <= i < |s.queue| ensures CmdOk(l, s.queue[i]) { assert CmdOk(s.log, s.queue[i]); }
    forall i | 0 <= i < |s.table| ensures EntryOk(l, s.table[i]) { assert EntryOk(s.log, s.table[i]); }
    forall i | 0 <= i < |s.pool| ensures FinishedOk(l, s.pool[i]) { assert FinishedOk(s.log, s.pool[i]); }
    forall i | 0 <= i < |s.called| ensures FinishedOk(l, s.called[i]) { assert FinishedOk(s.log, s.called[i]); }
  }

  lemma SettleOk(s: System, j: nat, o: Outcome)
    requires BoxesOk(s) && j < |s.table| && OutcomeOk(s.log, o)
    ensures BoxesOk(Settle(s, j, o))
  {
  }

  lemma OutcomesOk(l: Log, e: RxInfo, box: Box, msg: Msg, accept: bool, o: Oracle)
    requires EntryOk(l, e)
    ensures OutcomeOk(l, OnTick(e, o))
    ensures msg in l.arrived && Matches(e, msg.fd, msg.seqId) ==> OutcomeOk(l, OnResponse(e, msg, accept))
    ensures e.Hold? && CmdOk(l, ExpectCmd(box)) && Matches(e, box.fd, box.seqId) ==>
          OutcomeOk(l, OnExpect(e, box, accept))
  {
  }

  const NO_BOX := Box(0, 0, 0, 0, Undefined, None)
  const NO_MSG := Msg(0, 0, 0)

  lemma ReceiveKeepsBoxes(s: System, msg: Msg, accept: bool)
    requires BoxesOk(s)
    ensures BoxesOk(Receive(s, msg, accept))
  {
    hide OnResponse, OnTick, OnExpect;
    var t := s.(log := s.log.(arrived := s.log.arrived + {msg}));
    LogGrows(s, t.log);
    var found := Find(t.table, msg.fd, msg.seqId);
    if found.Some? {
      OutcomesOk(t.log, t.table[found.value], NO_BOX, msg, accept, Oracle(true, true));
      SettleOk(t, found.value, OnResponse(t.table[found.value], msg, accept));
    }
  }

  lemma TickKeepsBoxes(s: System, j: nat, o: Oracle)
    requires BoxesOk(s) && j < |s.table|
    ensures BoxesOk(TickOne(s, j, o))
  {
    hide OnResponse, OnTick, OnExpect;
    OutcomesOk(s.log, s.table[j], NO_BOX, NO_MSG, true, o);
    SettleOk(s, j, OnTick(s.table[j], o));
  }

  lemma ExpectKeepsBoxes(s: System, box: Box, accept: bool)
    requires BoxesOk(s) && CmdOk(s.log, ExpectCmd(box))
    ensures BoxesOk(HandleExpect(s, box, accept))
  {
    hide OnResponse, OnTick, OnExpect;
    var found := Find(s.table, box.fd, box.seqId);
    if found.Some? && s.table[found.value].Hold? {
      OutcomesOk(s.log, s.table[found.value], box, NO_MSG, accept, Oracle(true, true));
      SettleOk(s, found.value, OnExpect(s.table[found.value], box, accept));
    }
  }

  lemma HoldKeepsBoxes(s: System, c: Cmd, slot: nat)
    requires BoxesOk(s) && c.HoldCmd?
    ensures BoxesOk(HandleHold(s, c, slot))
  {
    if slot < |s.table| { assert EntryOk(s.log, s.table[slot]); }
    if c.sender < |s.senders| { assert SenderOk(s.log, s.senders[c.sender]); }
  }

  lemma HandleKeepsBoxes(s: System, slot: nat, accept: bool)
    requires BoxesOk(s) && s.queue != []
    ensures BoxesOk(HandleNext(s, slot, accept))
  {
    var c, t := s.queue[0], s.(queue := s.queue[1..]);
    assert CmdOk(s.log, c);
    assert BoxesOk(t);
    hide HandleHold, HandleExpect;
    if c.HoldCmd? { HoldKeepsBoxes(t, c, slot); } else { ExpectKeepsBoxes(t, c.box, accept); }
  }

  lemma SenderKeepsBoxes(s: System, m: Move)
    requires BoxesOk(s) && !(m.Handle? || m.Respond? || m.TickEntry?)
    ensures BoxesOk(Do(s, m))
  {
    if m.Start? { LogGrows(s, Do(s, m).log); }
    if m.Execute? && m.k < |s.pool| { assert FinishedOk(s.log, s.pool[m.k]); }
  }

  /** Every move keeps what the boxes carry. */
  lemma StepKeepsBoxes(s: System, m: Move)
    requires BoxesOk(s)
    ensures BoxesOk(Do(s, m))
  {
    hide HandleNext, Receive, TickOne, BoxesOk;
    match m
    case Handle(slot, accept) => if s.queue != [] { HandleKeepsBoxes(s, slot, accept); }
    case Respond(msg, accept) => ReceiveKeepsBoxes(s, msg, accept);
    case TickEntry(j, o) => if j < |s.table| { TickKeepsBoxes(s, j, o); }
    case _ => SenderKeepsBoxes(s, m);
  }

  // ---------------------------------------------------------------------------
  // How the listener knows a request: one HOLD per key, turned into one EXPECT

  function CmdHolds(c: Cmd, k: Key): nat { if c.HoldCmd? && c.key == k then 1 else 0 }

  function EntryKnows(e: RxInfo, k: Key): nat { if Matches(e, k.fd, k.seqId) then 1 else 0 }

  /** How often the listener knows request k: as a queued HOLD or as a table entry. */
  function Tokens(s: System, k: Key): nat {
    Tally(s.queue, CmdHolds, k) + Tally(s.table, EntryKnows, k)
  }

  predicate Used(s: System, k: Key) {
    k.fd in s.largest && k.seqId <= s.largest[k.fd]
  }

  ghost predicate TokensOk(s: System) {
    forall k :: && Tokens(s, k) <= 1 && (k in s.lost ==> Tokens(s, k) == 0)
                && (Tokens(s, k) > 0 || k in s.lost ==> Used(s, k))
  }

  /** Different boxes are different requests. */
  ghost predicate MadeOk(s: System) {
    && (forall i | 0 <= i < |s.log.made| :: Used(s, KeyOf(s.log.made[i])) && s.log.made[i].timeout >= 1)
    && (forall i, j | 0 <= i < j < |s.log.made| :: KeyOf(s.log.made[i]) != KeyOf(s.log.made[j]))
  }

  predicate HoldsKey(e: RxInfo, k: Key) {
    e.Hold? && e.fd == k.fd && e.seqId == k.seqId
  }

  /** The HOLD of k is in the table, unless it got lost. */
  ghost predicate Held(s: System, k: Key) {
    k in s.lost || exists j | 0 <= j < |s.table| :: HoldsKey(s.table[j], k)
  }

  ghost predicate SenderMeets(s: System, p: Sender) {
    match p
    case Boxed(b) => Tokens(s, KeyOf(b)) == 0 && KeyOf(b) !in s.lost
    case Holding(b, acked) => acked ==> Held(s, KeyOf(b))
    case Writing(b) => Held(s, KeyOf(b))
    case Expecting(b) => Held(s, KeyOf(b))
    case _ => true
  }

  ghost predicate MeetOk(s: System) {
    && (forall i | 0 <= i < |s.senders| :: SenderMeets(s, s.senders[i]))
    && (forall i | 0 <= i < |s.queue| && s.queue[i].ExpectCmd? :: Held(s, KeyOf(s.queue[i].box)))
  }

  ghost predicate Meets(s: System) { TokensOk(s) && MadeOk(s) && MeetOk(s) }

  ghost predicate Inv(s: System) { SingleOwner(s) && BoxesOk(s) && Meets(s) }

  lemma KeysDiffer(s: System, b: Box, c: Box)
    requires MadeOk(s) && Genuine(s.log, b) && Genuine(s.log, c) && b.id != c.id
    ensures KeyOf(b) != KeyOf(c)
  {
  }

  /** A box owned twice would be counted twice, so different owners serve different requests. */
  lemma SendersDiffer(s: System, i: nat, j: nat)
    requires SingleOwner(s) && BoxesOk(s) && MadeOk(s)
    requires i < j < |s.senders| && !s.senders[i].Idle? && !s.senders[j].Idle?
    ensures KeyOf(s.senders[i].box) != KeyOf(s.senders[j].box)
  {
    var id := s.senders[i].box.id;
    assert Places(s, id) <= 1;
    TallyTwice(s.senders, i, j, SenderHas, id);
    assert SenderOk(s.log, s.senders[i]) && SenderOk(s.log, s.senders[j]);
    KeysDiffer(s, s.senders[i].box, s.senders[j].box);
  }

  lemma SenderAndCommandDiffer(s: System, i: nat, j: nat)
    requires SingleOwner(s) && BoxesOk(s) && MadeOk(s)
    requires i < |s.senders| && j < |s.queue| && !s.senders[i].Idle? && s.queue[j].ExpectCmd?
    ensures KeyOf(s.senders[i].box) != KeyOf(s.queue[j].box)
  {
    var id := s.senders[i].box.id;
    assert Places(s, id) <= 1;
    TallyHas(s.senders, i, SenderHas, id);
    TallyHas(s.queue, j, CmdHas, id);
    assert SenderOk(s.log, s.senders[i]) && CmdOk(s.log, s.queue[j]);
    KeysDiffer(s, s.senders[i].box, s.queue[j].box);
  }

  lemma CommandsDiffer(s: System, i: nat, j: nat)
    requires SingleOwner(s) && BoxesOk(s) && MadeOk(s)
    requires i < j < |s.queue| && s.queue[i].ExpectCmd? && s.queue[j].ExpectCmd?
    ensures KeyOf(s.queue[i].box) != KeyOf(s.queue[j].box)
  {
    var id := s.queue[i].box.id;
    assert Places(s, id) <= 1;
    TallyTwice(s.queue, i, j, CmdHas, id);
    assert CmdOk(s.log, s.queue[i]) && CmdOk(s.log, s.queue[j]);
    KeysDiffer(s, s.queue[i].box, s.queue[j].box);
  }

  // Tokens of one move

  lemma SettleTokens(s: System, j: nat, o: Outcome, k: Key)
    requires j < |s.table|
    ensures Tokens(Settle(s, j, o), k) == Tokens(s, k) - EntryKnows(s.table[j], k)
              + (if o.Keep? then EntryKnows(o.entry, k) else if o.Crash? then EntryKnows(s.table[j], k) else 0)
  {
    match o
    case Keep(e) => TallyUpdate(s.table, j, e, EntryKnows, k);
    case Deliver(_) => TallyUpdate(s.table, j, RELEASED, EntryKnows, k);
    case Expire => TallyUpdate(s.table, j, RELEASED, EntryKnows, k);
    case Crash =>
  }

  /** After an entry changes without learning a new key, all that is left to check is that
      every HOLD that went away is accounted for. */
  lemma SettleKeepsMeeting(s: System, j: nat, o: Outcome, lost: set<Key>)
    requires Meets(s) && j < |s.table|
    requires o.Keep? ==> forall k :: EntryKnows(o.entry, k) <= EntryKnows(s.table[j], k)
    requires s.table[j].Hold? && !(o.Keep? && HoldsKey(o.entry, Key(s.table[j].fd, s.table[j].seqId)))
             ==> o.Crash? || lost == s.lost + {Key(s.table[j].fd, s.table[j].seqId)}
    requires lost == s.lost ||
             (s.table[j].Hold? && (o.Deliver? || o.Expire?) && lost == s.lost + {Key(s.table[j].fd, s.table[j].seqId)})
    ensures var t := Settle(s, j, o).(lost := lost);
            Meets(t)
  {
    var t := Settle(s, j, o).(lost := lost);
    forall k
      ensures Tokens(t, k) <= Tokens(s, k) && (k in lost ==> Tokens(t, k) == 0)
      ensures k in lost ==> k in s.lost || Tokens(s, k) > 0
    {
      SettleTokens(s, j, o, k);
      TallyHas(s.table, j, EntryKnows, k);
    }
    forall k | Held(s, k) ensures Held(t, k) {
      if k !in s.lost {
        var h :| 0 <= h < |s.table| && HoldsKey(s.table[h], k);
        if h != j { assert HoldsKey(t.table[h], k); }
        else if k !in lost { assert HoldsKey(t.table[j], k); }
      }
    }
    forall i | 0 <= i < |t.senders| ensures SenderMeets(t, t.senders[i]) {
      assert SenderMeets(s, s.senders[i]);
      if t.senders[i].Boxed? { assert KeyOf(t.senders[i].box) !in lost; }
    }
  }

  lemma TickMeets(s: System, j: nat, o: Oracle)
    requires Inv(s) && j < |s.table|
    ensures Meets(TickOne(s, j, o))
  {
    SettleKeepsMeeting(s, j, OnTick(s.table[j], o), TickOne(s, j, o).lost);
  }

  lemma RespondMeets(s: System, msg: Msg, accept: bool)
    requires Inv(s)
    ensures Meets(Receive(s, msg, accept))
  {
    var u := s.(log := s.log.(arrived := s.log.arrived + {msg}));
    SameMeeting(s, u);
    var found := Find(u.table, msg.fd, msg.seqId);
    if found.Some? {
      SettleKeepsMeeting(u, found.value, OnResponse(u.table[found.value], msg, accept), u.lost);
    }
  }

  lemma SameMeeting(s: System, t: System)
    requires Meets(s)
    requires s.senders == t.senders && s.queue == t.queue && s.table == t.table && s.largest == t.largest
    requires s.log.made == t.log.made && s.lost == t.lost
    ensures Meets(t)
  {
    forall k ensures Tokens(t, k) == Tokens(s, k) {}
    forall k | Held(s, k) ensures Held(t, k) {}
    forall i | 0 <= i < |t.senders| ensures SenderMeets(t, t.senders[i]) { assert SenderMeets(s, s.senders[i]); }
  }

  lemma ErrorMeets(s: System, fd: int, err: RxError)
    requires Inv(s)
    ensures Meets(Do(s, SocketError(fd, err)))
  {
    var t := Do(s, SocketError(fd, err));
    if t != s {
      forall k ensures Tokens(t, k) == Tokens(s, k) { TallyPointwise(s.table, t.table, EntryKnows, k); }
      forall k | Held(s, k) ensures Held(t, k) {
        if k !in s.lost {
          var h :| 0 <= h < |s.table| && HoldsKey(s.table[h], k);
          assert HoldsKey(t.table[h], k);
        }
      }
      forall i | 0 <= i < |t.senders| ensures SenderMeets(t, t.senders[i]) { assert SenderMeets(s, s.senders[i]); }
    }
  }

  lemma PopTokens(s: System, k: Key)
    requires s.queue != []
    ensures Tokens(s.(queue := s.queue[1..]), k) == Tokens(s, k) - CmdHolds(s.queue[0], k)
  {
  }

  lemma PlaceTokens(s: System, slot: nat, k: Key)
    requires Inv(s) && s.queue != [] && s.queue[0].HoldCmd?
    ensures var c := s.queue[0]; var t := PlaceHold(s.(queue := s.queue[1..]), c, slot);
            && Tokens(t, k) <= Tokens(s, k) && (k != c.key ==> Tokens(t, k) == Tokens(s, k))
            && (k in t.lost ==> Tokens(t, k) == 0 && Used(t, k))
  {
    var t := PlaceHold(s.(queue := s.queue[1..]), s.queue[0], slot);
    PopTokens(s, k);
    if slot < |s.table| && s.table[slot].Inactive? { TallyUpdate(s.table, slot, t.table[slot], EntryKnows, k); }
    assert Tokens(s, s.queue[0].key) == 1;
  }

  lemma PlaceHeld(s: System, slot: nat, k: Key)
    requires s.queue != [] && s.queue[0].HoldCmd? && (Held(s, k) || k == s.queue[0].key)
    ensures Held(PlaceHold(s.(queue := s.queue[1..]), s.queue[0], slot), k)
  {
    var t := PlaceHold(s.(queue := s.queue[1..]), s.queue[0], slot);
    if k !in t.lost {
      if k == s.queue[0].key { assert HoldsKey(t.table[slot], k); }
      else {
        var h :| 0 <= h < |s.table| && HoldsKey(s.table[h], k);
        assert HoldsKey(t.table[h], k);
      }
    }
  }

  lemma PlaceMeets(s: System, slot: nat)
    requires Inv(s) && s.queue != [] && s.queue[0].HoldCmd?
    ensures var t := PlaceHold(s.(queue := s.queue[1..]), s.queue[0], slot);
            Meets(t) && Held(t, s.queue[0].key)
  {
    var t := PlaceHold(s.(queue := s.queue[1..]), s.queue[0], slot);
    forall k
      ensures Tokens(t, k) <= 1 && (k in t.lost ==> Tokens(t, k) == 0)
      ensures Tokens(t, k) > 0 || k in t.lost ==> Used(t, k)
    {
      PlaceTokens(s, slot, k);
    }
    forall i | 0 <= i < |t.senders| ensures SenderMeets(t, t.senders[i]) {
      assert SenderMeets(s, s.senders[i]);
      if s.senders[i].Boxed? {
        TokensOfBoxed(s, i);
        PlaceTokens(s, slot, KeyOf(s.senders[i].box));
      } else if !s.senders[i].Idle? && Held(s, KeyOf(s.senders[i].box)) {
        PlaceHeld(s, slot, KeyOf(s.senders[i].box));
      }
    }
    forall i | 0 <= i < |t.queue| && t.queue[i].ExpectCmd? ensures Held(t, KeyOf(t.queue[i].box)) {
      assert s.queue[i + 1] == t.queue[i];
      PlaceHeld(s, slot, KeyOf(t.queue[i].box));
    }
    PlaceHeld(s, slot, s.queue[0].key);
  }

  lemma HoldMeets(s: System, slot: nat, accept: bool)
    requires Inv(s) && !s.crashed && s.queue != [] && s.queue[0].HoldCmd?
    ensures Meets(HandleNext(s, slot, accept))
  {
    var c := s.queue[0];
    var u := PlaceHold(s.(queue := s.queue[1..]), c, slot);
    var t := Acknowledge(u, c);
    PlaceMeets(s, slot);
    assert CmdOk(s.log, c);
    forall k ensures Tokens(t, k) == Tokens(u, k) && (Held(u, k) ==> Held(t, k)) {}
    forall i | 0 <= i < |t.senders| ensures SenderMeets(t, t.senders[i]) {
      assert SenderMeets(u, u.senders[i]) && SenderOk(s.log, s.senders[i]);
    }
  }

  /** A sender that has not queued its HOLD yet is not the one being handled. */
  lemma TokensOfBoxed(s: System, i: nat)
    requires Inv(s) && s.queue != [] && s.queue[0].HoldCmd? && i < |s.senders| && s.senders[i].Boxed?
    ensures KeyOf(s.senders[i].box) != s.queue[0].key
  {
    var k := s.queue[0].key;
    assert SenderMeets(s, s.senders[i]);
    assert Tokens(s, k) >= 1;
  }

  /** The heart of the protocol: the oldest EXPECT finds its HOLD, and nothing else, unless
      the HOLD was lost; then it finds nothing. */
  lemma ExpectFindsHold(s: System)
    requires Inv(s) && s.queue != [] && s.queue[0].ExpectCmd?
    ensures var b := s.queue[0].box; var found := Find(s.table, b.fd, b.seqId);
            && (found.Some? <==> KeyOf(b) !in s.lost)
            && (found.Some? ==> s.table[found.value].Hold?)
  {
    var b := s.queue[0].box;
    var k := KeyOf(b);
    var found := Find(s.table, b.fd, b.seqId);
    assert Held(s, k);
    assert Tokens(s, k) <= 1;
    if k in s.lost {
      if found.Some? { TallyHas(s.table, found.value, EntryKnows, k); }
    } else {
      var h :| 0 <= h < |s.table| && HoldsKey(s.table[h], k);
      assert Matches(s.table[h], b.fd, b.seqId);
      if found.value < h { TallyTwice(s.table, found.value, h, EntryKnows, k); }
    }
  }

  lemma ExpectTokens(s: System, slot: nat, accept: bool, k: Key)
    requires Inv(s) && !s.crashed && s.queue != [] && s.queue[0].ExpectCmd?
    ensures Tokens(HandleNext(s, slot, accept), k) <= Tokens(s, k)
    ensures Held(s, k) && k != KeyOf(s.queue[0].box) ==> Held(HandleNext(s, slot, accept), k)
  {
    var b := s.queue[0].box;
    var t := HandleNext(s, slot, accept);
    ExpectFindsHold(s);
    var found := Find(s.table, b.fd, b.seqId);
    PopTokens(s, k);
    if found.Some? {
      SettleTokens(s.(queue := s.queue[1..]), found.value, OnExpect(s.table[found.value], b, accept), k);
    }
    if Held(s, k) && k != KeyOf(b) && k !in s.lost {
      var h :| 0 <= h < |s.table| && HoldsKey(s.table[h], k);
      assert HoldsKey(t.table[h], k);
    }
  }

  /** Handling an EXPECT touches the table and the boxes only. */
  lemma ExpectFrame(s: System, slot: nat, accept: bool)
    requires Inv(s) && !s.crashed && s.queue != [] && s.queue[0].ExpectCmd?
    ensures var t := HandleNext(s, slot, accept);
            && t.senders == s.senders && t.queue == s.queue[1..]
            && t.lost == s.lost && t.log == s.log && t.largest == s.largest
  {
    ExpectFindsHold(s);
  }

  lemma ExpectSenderMeets(s: System, slot: nat, accept: bool, i: nat)
    requires Inv(s) && !s.crashed && s.queue != [] && s.queue[0].ExpectCmd? && i < |s.senders|
    ensures SenderMeets(HandleNext(s, slot, accept), s.senders[i])
  {
    assert SenderMeets(s, s.senders[i]);
    ExpectFrame(s, slot, accept);
    if !s.senders[i].Idle? {
      SenderAndCommandDiffer(s, i, 0);
      ExpectTokens(s, slot, accept, KeyOf(s.senders[i].box));
    }
    hide HandleNext, Inv;
  }

  lemma ExpectMeets(s: System, slot: nat, accept: bool)
    requires Inv(s) && !s.crashed && s.queue != [] && s.queue[0].ExpectCmd?
    ensures Meets(HandleNext(s, slot, accept))
  {
    hide HandleNext, SingleOwner, BoxesOk;
    var t := HandleNext(s, slot, accept);
    ExpectFrame(s, slot, accept);
    forall k ensures Tokens(t, k) <= Tokens(s, k) { ExpectTokens(s, slot, accept, k); }
    forall i | 0 <= i < |t.senders| ensures SenderMeets(t, t.senders[i]) { ExpectSenderMeets(s, slot, accept, i); }
    forall i | 0 <= i < |t.queue| && t.queue[i].ExpectCmd? ensures Held(t, KeyOf(t.queue[i].box)) {
      CommandsDiffer(s, 0, i + 1);
      assert s.queue[i + 1] == t.queue[i];
      ExpectTokens(s, slot, accept, KeyOf(t.queue[i].box));
    }
  }

  lemma StartMeets(s: System, m: Move)
    requires Inv(s) && m.Start?
    ensures Meets(Do(s, m))
  {
    var t := Do(s, m);
    if t != s {
      var k := Key(m.fd, m.seqId);
      assert !Used(s, k);
      forall q ensures Tokens(t, q) == Tokens(s, q) && (Used(s, q) ==> Used(t, q)) {}
      forall q | Held(s, q) ensures Held(t, q) {}
      assert Tokens(s, k) == 0 && k !in s.lost;
      forall i | 0 <= i < |t.senders| ensures SenderMeets(t, t.senders[i]) { assert SenderMeets(s, s.senders[i]); }
    }
  }

  lemma QueueHoldMeets(s: System, i: nat)
    requires Inv(s)
    ensures Meets(Do(s, QueueHold(i)))
  {
    var t := Do(s, QueueHold(i));
    if t != s {
      var k := KeyOf(s.senders[i].box);
      assert SenderMeets(s, s.senders[i]) && SenderOk(s.log, s.senders[i]);
      forall q ensures Tokens(t, q) == Tokens(s, q) + if q == k then 1 else 0 {
        TallyAppend(s.queue, t.queue[|s.queue|], CmdHolds, q);
      }
      forall q | Held(s, q) ensures Held(t, q) {}
      forall j | 0 <= j < |t.senders| ensures SenderMeets(t, t.senders[j]) {
        assert SenderMeets(s, s.senders[j]);
        if j != i && !s.senders[j].Idle? { SendersDiffer(s, if i < j then i else j, if i < j then j else i); }
      }
    }
  }

  /** A sender that keeps its key, or drops it, leaves the listener's knowledge alone. */
  lemma SenderMoves(s: System, t: System, i: nat)
    requires Inv(s) && i < |s.senders| == |t.senders| && t.senders == s.senders[i := t.senders[i]]
    requires t.table == s.table && t.lost == s.lost && t.log == s.log && t.largest == s.largest
    requires t.queue == s.queue || (s.senders[i].Expecting? && t.queue == s.queue + [ExpectCmd(s.senders[i].box)])
    requires SenderMeets(s, t.senders[i])
    ensures Meets(t)
  {
    forall k ensures Tokens(t, k) == Tokens(s, k) {
      if t.queue != s.queue { TallyAppend(s.queue, t.queue[|s.queue|], CmdHolds, k); }
    }
    forall k | Held(s, k) ensures Held(t, k) {}
    forall j | 0 <= j < |t.senders| ensures SenderMeets(t, t.senders[j]) { assert SenderMeets(s, s.senders[j]); }
    assert SenderMeets(s, s.senders[i]);
  }

  lemma OtherMeets(s: System, m: Move)
    requires Inv(s)
    requires m.Reject? || m.HoldDone? || m.Sent? || m.SendFails? || m.QueueExpect? || m.FailureAccepted?
    ensures Meets(Do(s, m))
  {
    var t := Do(s, m);
    if t != s {
      assert SenderMeets(s, s.senders[m.i]);
      SenderMoves(s, t, m.i);
    }
  }

  lemma ExecuteMeets(s: System, k: nat)
    requires Inv(s)
    ensures Meets(Do(s, Execute(k)))
  {
    SameMeeting(s, Do(s, Execute(k)));
  }

  /** Every move of every thread keeps the invariant. */
  lemma StepKeepsInv(s: System, m: Move)
    requires Inv(s)
    ensures Inv(Do(s, m))
  {
    StepKeepsSingleOwner(s, m);
    StepKeepsBoxes(s, m);
    StepMeets(s, m);
  }

  lemma StepMeets(s: System, m: Move)
    requires Inv(s)
    ensures Meets(Do(s, m))
  {
    hide HandleNext, Receive, TickOne, Meets, SingleOwner, BoxesOk;
    assert Meets(s);
    match m
    case Start(_, _, _, _) => StartMeets(s, m);
    case QueueHold(i) => QueueHoldMeets(s, i);
    case Handle(slot, accept) =>
      if !s.crashed && s.queue != [] {
        if s.queue[0].HoldCmd? { HoldMeets(s, slot, accept); } else { ExpectMeets(s, slot, accept); }
      }
    case Respond(msg, accept) => RespondMeets(s, msg, accept);
    case SocketError(fd, err) => ErrorMeets(s, fd, err);
    case TickEntry(j, o) => if j < |s.table| { TickMeets(s, j, o); }
    case Execute(k) => ExecuteMeets(s, k);
    case _ => OtherMeets(s, m);
  }

  // ---------------------------------------------------------------------------
  // Whole runs

  lemma InitInv(senders: nat, entries: nat)
    ensures Inv(Init(senders, entries))
  {
    var s := Init(senders, entries);
    forall id: nat ensures Places(s, id) == 0 {
      TallyEmpty(s.senders, SenderHas, id);
      TallyEmpty(s.table, EntryHas, id);
    }
    forall k ensures Tokens(s, k) == 0 { TallyEmpty(s.table, EntryKnows, k); }
  }

  lemma {:induction false} RunKeepsInv(senders: nat, entries: nat, moves: seq<Move>)
    ensures Inv(Exec(Init(senders, entries), moves))
  {
    if moves == [] {
      InitInv(senders, entries);
    } else {
      RunKeepsInv(senders, entries, moves[..|moves| - 1]);
      StepKeepsInv(Exec(Init(senders, entries), moves[..|moves| - 1]), moves[|moves| - 1]);
    }
  }

  /** In every run each box is in exactly one place: its callback runs at most once, and
      never after Bus_SendRequest returned false. */
  lemma {:induction false} CallbackAtMostOnce(senders: nat, entries: nat, moves: seq<Move>)
    ensures var s := Exec(Init(senders, entries), moves);
            && SingleOwner(s)
            && (forall i, j | 0 <= i < j < |s.called| :: s.called[i].id != s.called[j].id)
            && (forall i, j | 0 <= i < |s.called| && 0 <= j < |s.rejected| :: s.called[i].id != s.rejected[j].id)
  {
    RunKeepsInv(senders, entries, moves);
    var s := Exec(Init(senders, entries), moves);
    forall i, j | 0 <= i < j < |s.called| ensures s.called[i].id != s.called[j].id {
      assert Places(s, s.called[i].id) <= 1;
      TallyTwice(s.called, i, j, BoxIs, s.called[i].id);
    }
    forall i, j | 0 <= i < |s.called| && 0 <= j < |s.rejected| ensures s.called[i].id != s.rejected[j].id {
      assert Places(s, s.called[i].id) <= 1;
      TallyHas(s.called, i, BoxIs, s.called[i].id);
      TallyHas(s.rejected, j, BoxIs, s.called[i].id);
    }
  }

  /** In every run a callback that reports success carries a response that arrived on the
      request's own socket and acknowledges the request's own sequence ID; and no callback
      ever sees an undefined status or one that only says that the request went out. */
  lemma {:induction false} SuccessCarriesOwnResponse(senders: nat, entries: nat, moves: seq<Move>)
    ensures var s := Exec(Init(senders, entries), moves);
            forall i | 0 <= i < |s.called| ::
              var b := s.called[i];
              && b.status != Undefined && b.status != RequestComplete
              && b.id < |s.log.made| && KeyOf(b) == KeyOf(s.log.made[b.id])
              && (b.status == Success ==>
                    b.response.Some? && b.response.value in s.log.arrived
                    && b.response.value.fd == b.fd && b.response.value.seqId == b.seqId)
  {
    RunKeepsInv(senders, entries, moves);
    var s := Exec(Init(senders, entries), moves);
    forall i | 0 <= i < |s.called| ensures FinishedOk(s.log, s.called[i]) {}
  }

  /** In every run, when the listener handles an EXPECT, it converts that request's HOLD
      exactly if the HOLD was neither refused by a full table nor timed out; otherwise the box
      is dropped. The assertion against a second EXPECT is never reached. */
  lemma {:induction false} ExpectMeetsHold(senders: nat, entries: nat, moves: seq<Move>, slot: nat, accept: bool)
    ensures var s := Exec(Init(senders, entries), moves);
            !s.crashed && s.queue != [] && s.queue[0].ExpectCmd? ==>
              var b, t := s.queue[0].box, Do(s, Handle(slot, accept));
              && !t.crashed
              && (t.dropped == s.dropped <==> KeyOf(b) !in s.lost)
              && (KeyOf(b) in s.lost ==> t == s.(queue := s.queue[1..], dropped := s.dropped + [b]))
  {
    RunKeepsInv(senders, entries, moves);
    var s := Exec(Init(senders, entries), moves);
    if !s.crashed && s.queue != [] && s.queue[0].ExpectCmd? { ExpectFindsHold(s); }
  }

  // ---------------------------------------------------------------------------
  // When a HOLD gets lost

  /** The move makes the listener refuse a HOLD for want of a free entry, or give one up
      because its time has run out. */
  predicate LosesHold(s: System, m: Move) {
    !s.crashed &&
    match m
    case Handle(_, _) => s.queue != [] && s.queue[0].HoldCmd? && Full(s.table)
    case TickEntry(j, o) => j < |s.table| && s.table[j].Hold? && s.table[j].timeout == 1 && o.clock
    case _ => false
  }

  ghost predicate NeverLoses(s: System, moves: seq<Move>) {
    moves == [] ||
    (var before := moves[..|moves| - 1];
     NeverLoses(s, before) && !LosesHold(Exec(s, before), moves[|moves| - 1]))
  }

  lemma HandleLosesIff(s: System, slot: nat, accept: bool)
    requires Inv(s) && !s.crashed && s.queue != [] && (s.queue[0].HoldCmd? ==> MayTake(s.table, slot))
    ensures var t := HandleNext(s, slot, accept);
            s.lost <= t.lost && (t.lost == s.lost <==> !(s.queue[0].HoldCmd? && Full(s.table)))
  {
    if s.queue[0].HoldCmd? {
      TallyHas(s.queue, 0, CmdHolds, s.queue[0].key);
      assert Tokens(s, s.queue[0].key) > 0 && s.queue[0].key !in s.lost;
    }
    hide Inv, Tokens, OnExpect, Find;
  }

  lemma TickLosesIff(s: System, j: nat, o: Oracle)
    requires Inv(s) && !s.crashed && j < |s.table|
    ensures var t := TickOne(s, j, o); s.lost <= t.lost && (t.lost == s.lost <==> !LosesHold(s, TickEntry(j, o)))
  {
    if s.table[j].Hold? {
      var k := Key(s.table[j].fd, s.table[j].seqId);
      TallyHas(s.table, j, EntryKnows, k);
      assert Tokens(s, k) > 0 && k !in s.lost;
    }
    hide Inv, Tokens;
  }

  /** Those moves, and no others, add to the lost requests; none is ever taken back. */
  lemma LostGrowsIff(s: System, m: Move)
    requires Inv(s)
    ensures s.lost <= Do(s, m).lost && (Do(s, m).lost == s.lost <==> !LosesHold(s, m))
  {
    hide Inv, HandleNext, TickOne, ErrorTable, Monotonic;
    if !s.crashed {
      if m.Handle? && s.queue != [] && (s.queue[0].HoldCmd? ==> MayTake(s.table, m.slot)) {
        HandleLosesIff(s, m.slot, m.accept);
      }
      if m.TickEntry? && m.j < |s.table| { TickLosesIff(s, m.j, m.o); }
    }
  }

  /** Only an EXPECT whose HOLD was lost is dropped. */
  lemma DropsOnlyLost(s: System, m: Move)
    requires Inv(s) && s.lost == {}
    ensures Do(s, m).dropped == s.dropped
  {
    if s.queue != [] && s.queue[0].ExpectCmd? { ExpectFindsHold(s); }
    hide Inv;
  }

  /** In every run: no request is lost exactly if no HOLD met a full table and none timed out,
      and then no box is ever dropped. */
  lemma {:induction false} NothingLostIff(senders: nat, entries: nat, moves: seq<Move>)
    ensures var s := Exec(Init(senders, entries), moves);
            && (s.lost == {} <==> NeverLoses(Init(senders, entries), moves))
            && (NeverLoses(Init(senders, entries), moves) ==> s.dropped == [])
  {
    hide Do, Inv, LosesHold;
    if moves != [] {
      var before := moves[..|moves| - 1];
      NothingLostIff(senders, entries, before);
      RunKeepsInv(senders, entries, before);
      var s := Exec(Init(senders, entries), before);
      LostGrowsIff(s, moves[|moves| - 1]);
      if s.lost == {} { DropsOnlyLost(s, moves[|moves| - 1]); }
    }
  }
}
