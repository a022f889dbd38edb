/** The listener's table of partially processed messages (rx_info), entry by entry:
    what a command, a response, a socket error or a tick does to one entry
    (src/lib/bus/listener_cmd.c, listener_io.c, listener_task.c).

    The listener thread takes a box out of an entry, offers it to the threadpool and, when
    the offer is refused, puts it back before anything else looks at the entry, so each
    handler is one step here. `accept` says whether the threadpool took the task. */
module RxTable {
  import opened Wrappers

  datatype Status =
    | Undefined | RequestComplete | Success
    | TxTimeout | TxFailure | RxTimeout | RxFailure
    | UnregisteredSocket | TxTimeoutNotifyingListener | TimestampError

  datatype RxError = NoError | ReadyForDelivery | Done | PollHup | PollErr | ReadFailure

  /** A response unpacked from socket `fd`; `seqId` is its acknowledged sequence ID. */
  datatype Msg = Msg(fd: int, seqId: int, body: int)

  /** boxed_msg. `id` tells allocations apart; `response` is result.u.response. */
  datatype Box = Box(id: nat, fd: int, seqId: int, timeout: int, status: Status, response: Option<Msg>)

  /** rx_info_t. `residue` is what an inactive entry's union still holds where a HOLD keeps
      its error: hold_response fills the other fields but never writes that one. */
  datatype RxInfo =
    | Inactive(residue: RxError)
    | Hold(fd: int, seqId: int, timeout: int, result: Option<Msg>, error: RxError)
    | Expect(box: Box, error: RxError, result: Option<Msg>, timeout: int)

  /** What a handler does with an entry: keep it in a new state, hand its box to the
      threadpool and release it, release it without a box, or fail an assertion. */
  datatype Outcome = Keep(entry: RxInfo) | Deliver(box: Box) | Expire | Crash

  /** The threadpool's and the clock's answers during one entry's tick. */
  datatype Oracle = Oracle(accept: bool, clock: bool)

  /** ListenerTask_ReleaseRXInfo clears the union. */
  const RELEASED := Inactive(NoError)

  function Next(e: RxInfo, o: Outcome): RxInfo {
    match o
    case Keep(e') => e'
    case Deliver(_) => RELEASED
    case Expire => RELEASED
    case Crash => e
  }

  /** ListenerHelper_FindInfoBySequenceID's test on one entry. */
  predicate Matches(e: RxInfo, fd: int, seqId: int) {
    match e
    case Inactive(_) => false
    case Hold(f, q, _, _, _) => f == fd && q == seqId
    case Expect(b, _, _, _) => b.fd == fd && b.seqId == seqId
  }

  /** hold_response on the entry taken from the freelist. */
  function OnHold(e: RxInfo, fd: int, seqId: int, timeout: int): RxInfo
    requires e.Inactive?
  {
    Hold(fd, seqId, timeout, None, e.residue)
  }

  /** ListenerTask_AttemptDelivery: a request that was sent completely becomes a success. */
  function AttemptDelivery(box: Box, msg: Msg, timeout: int, accept: bool): Outcome {
    var b := box.(status := if box.status == RequestComplete then Success else box.status, response := Some(msg));
    if accept then Deliver(b) else Keep(Expect(b, ReadyForDelivery, Some(msg), timeout))
  }

  /** ListenerTask_NotifyMessageFailure. */
  function NotifyFailure(e: RxInfo, status: Status, accept: bool): Outcome
    requires e.Expect?
  {
    var b := e.box.(status := status);
    if accept then Deliver(b) else Keep(e.(box := b))
  }

  /** expect_response on the pending HOLD. */
  function OnExpect(e: RxInfo, box: Box, accept: bool): Outcome
    requires e.Hold?
  {
    if e.error == NoError && e.result.Some? then AttemptDelivery(box, e.result.value, e.timeout, accept)
    else if e.error != NoError then NotifyFailure(Expect(box, e.error, e.result, e.timeout), RxFailure, accept)
    else Keep(Expect(box, NoError, None, box.timeout))
  }

  /** process_unpacked_message on the entry found for it. Both arms assert that no earlier
      response is pending; the assertion in the EXPECT arm reads the other union member and
      there sees the flag of a stored result. */
  function OnResponse(e: RxInfo, msg: Msg, accept: bool): Outcome
    requires !e.Inactive?
  {
    match e
    case Hold(fd, seqId, timeout, result, error) =>
      if result.Some? then Crash else Keep(Hold(fd, seqId, timeout, Some(msg), error))
    case Expect(b, _, result, timeout) =>
      if result.Some? then Crash else AttemptDelivery(b, msg, timeout, accept)
  }

  /** set_error_for_socket: the HOLD arm does not look at the socket. */
  function OnError(e: RxInfo, fd: int, err: RxError): RxInfo {
    match e
    case Inactive(_) => e
    case Hold(f, q, timeout, result, _) => Hold(f, q, timeout, result, err)
    case Expect(b, _, result, timeout) => if b.fd == fd then Expect(b, err, result, timeout) else e
  }

  /** set_error_for_socket marks every entry of the table. */
  function ErrorTable(t: seq<RxInfo>, fd: int, err: RxError): (r: seq<RxInfo>)
    ensures |r| == |t| && forall j | 0 <= j < |t| :: r[j] == OnError(t[j], fd, err)
  {
    seq(|t|, j requires 0 <= j < |t| => OnError(t[j], fd, err))
  }

  /** retry_delivery and clean_up_completed_info assert that the box holds a success. */
  function Redeliver(e: RxInfo, accept: bool): Outcome
    requires e.Expect?
  {
    if e.box.status != Success then Crash else if accept then Deliver(e.box) else Keep(e)
  }

  /** One iteration of tick_handler's loop. */
  function OnTick(e: RxInfo, o: Oracle): Outcome {
    match e
    case Inactive(_) => Keep(e)
    case Hold(fd, seqId, timeout, result, error) =>
      if timeout == 1 then (if o.clock then Expire else Keep(e)) else Keep(Hold(fd, seqId, timeout - 1, result, error))
    case Expect(box, error, result, timeout) =>
      if error == ReadyForDelivery || error == Done then Redeliver(e, o.accept)
      else if error != NoError then NotifyFailure(e, RxFailure, o.accept)
      else if timeout == 1 then (if o.clock then NotifyFailure(e, RxTimeout, o.accept) else Keep(e))
      else Keep(Expect(box, error, result, timeout - 1))
  }

  /** The first match of a full scan of the table from index i. */
  function FindFrom(t: seq<RxInfo>, fd: int, seqId: int, i: nat): (r: Option<nat>)
    requires i <= |t|
    ensures r.Some? ==> i <= r.value < |t| && Matches(t[r.value], fd, seqId)
                        && forall j | i <= j < r.value :: !Matches(t[j], fd, seqId)
    ensures r.None? ==> forall j | i <= j < |t| :: !Matches(t[j], fd, seqId)
    decreases |t| - i
  {
    if i == |t| then None else if Matches(t[i], fd, seqId) then Some(i) else FindFrom(t, fd, seqId, i + 1)
  }

  function Find(t: seq<RxInfo>, fd: int, seqId: int): (r: Option<nat>)
    ensures r.Some? ==> r.value < |t| && Matches(t[r.value], fd, seqId)
                        && forall j | 0 <= j < r.value :: !Matches(t[j], fd, seqId)
    ensures r.None? ==> forall j | 0 <= j < |t| :: !Matches(t[j], fd, seqId)
  {
    FindFrom(t, fd, seqId, 0)
  }

  /** The HOLD's timeout is the request's plus five seconds, passed as an int16_t. */
  function HoldTimeout(timeout: int): int {
    var u := (timeout + 5) % 0x1_0000;
    if u < 0x8000 then u else u - 0x1_0000
  }

  /** k ticks in a row with a working clock. */
  function Ticks(e: RxInfo, accept: bool, k: nat): RxInfo {
    if k == 0 then e else var e' := Ticks(e, accept, k - 1); Next(e', OnTick(e', Oracle(accept, true)))
  }

  lemma {:induction false} HoldCountsDown(e: RxInfo, accept: bool, k: nat)
    requires e.Hold? && (e.timeout < 1 || k < e.timeout)
    ensures Ticks(e, accept, k) == Hold(e.fd, e.seqId, e.timeout - k, e.result, e.error)
  {
    if k > 0 { HoldCountsDown(e, accept, k - 1); }
  }

  /** An abandoned HOLD, one whose EXPECT never comes, is given up exactly if its timeout,
      cut down to int16_t, is still positive; then it is gone after that many ticks. */
  lemma HoldExpiresIff(fd: int, seqId: int, timeout: int, accept: bool)
    ensures var e := Hold(fd, seqId, HoldTimeout(timeout), None, NoError);
            && ((exists k: nat :: Ticks(e, accept, k).Inactive?) <==> HoldTimeout(timeout) >= 1)
            && (HoldTimeout(timeout) >= 1 ==> Ticks(e, accept, HoldTimeout(timeout)).Inactive?)
  {
    var e := Hold(fd, seqId, HoldTimeout(timeout), None, NoError);
    var h := HoldTimeout(timeout);
    if h >= 1 {
      HoldCountsDown(e, accept, h - 1);
      assert Ticks(e, accept, h).Inactive?;
    } else {
      forall k: nat ensures !Ticks(e, accept, k).Inactive? { HoldCountsDown(e, accept, k); }
    }
  }

  /** An EXPECT without a response loses one second a tick, and nothing else. */
  lemma {:induction false} ExpectCountsDown(box: Box, timeout: int, accept: bool, k: nat)
    requires k < timeout
    ensures Ticks(Expect(box, NoError, None, timeout), accept, k) == Expect(box, NoError, None, timeout - k)
  {
    if k > 0 { ExpectCountsDown(box, timeout, accept, k - 1); }
  }

  /** It is not given up early and not late: the tick that reports the timeout is the one after
      exactly timeout - 1 others; a clock failure at that tick puts it off. */
  lemma ExpectTimesOutExactly(box: Box, timeout: int, k: nat)
    requires k < timeout
    ensures var e := Ticks(Expect(box, NoError, None, timeout), true, k);
            && (OnTick(e, Oracle(true, true)).Deliver? <==> k == timeout - 1)
            && (k == timeout - 1 ==> OnTick(e, Oracle(true, true)) == Deliver(box.(status := RxTimeout)))
            && (k == timeout - 1 ==> OnTick(e, Oracle(true, false)) == Keep(e))
  {
    ExpectCountsDown(box, timeout, true, k);
  }

  /** What the cut to int16_t does to each request timeout a client can ask for. Up to 32762
      seconds the HOLD outlasts its request by the intended five; from there to 65531 it never
      expires; and the last four leave it one to four ticks, far less than the request itself. */
  lemma HoldTimeoutRange(timeout: int)
    requires 1 <= timeout < 0x1_0000
    ensures HoldTimeout(timeout) == timeout + 5 <==> timeout <= 32762
    ensures HoldTimeout(timeout) > timeout <==> timeout <= 32762
    ensures HoldTimeout(timeout) < 1 <==> 32763 <= timeout <= 65531
    ensures 1 <= HoldTimeout(timeout) <= timeout <==> timeout >= 65532
    ensures timeout >= 65532 ==> HoldTimeout(timeout) <= 4
  {
  }

  /** An error on another socket marks a HOLD too: the request behind it fails although its own
      socket is fine and its response has arrived, before the error or after it. */
  lemma ForeignErrorFailsRequest(box: Box, timeout: int, msg: Msg, other: int, err: RxError)
    requires other != box.fd && err != NoError
    ensures var e := Hold(box.fd, box.seqId, timeout, None, NoError);
            var before := OnError(Next(e, OnResponse(e, msg, true)), other, err);
            var e' := OnError(e, other, err);
            var after := Next(e', OnResponse(e', msg, true));
            before.Hold? && after.Hold?
            && OnExpect(before, box, true) == OnExpect(after, box, true) == Deliver(box.(status := RxFailure))
  {
  }
}
