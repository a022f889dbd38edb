/** The counting semaphore that limits outstanding operations
    (src/lib/kinetic_countingsemaphore.c). Each critical section is one atomic step. */
module CountingSemaphores {

  /** A thread inside Take: not there, or asleep on the condition variable; `signalled` once
      it has been woken and is about to look at the count again. */
  datatype Taker = Out | Asleep(signalled: bool)

  datatype Sem = Sem(max: nat, count: nat, numWaiting: nat, takers: seq<Taker>)

  function Create(counts: nat, threads: nat): Sem {
    Sem(counts, counts, 0, seq(threads, _ => Out))
  }

  /** Take up to the first look at the count. */
  function Enter(s: Sem, i: nat): Sem
    requires i < |s.takers|
  {
    if s.count == 0 then s.(numWaiting := s.numWaiting + 1, takers := s.takers[i := Asleep(false)])
    else s.(count := s.count - 1)
  }

  /** A woken thread looks again. */
  function Recheck(s: Sem, i: nat): Sem
    requires i < |s.takers| && s.numWaiting > 0
  {
    if s.count == 0 then s.(takers := s.takers[i := Asleep(false)])
    else s.(count := s.count - 1, numWaiting := s.numWaiting - 1, takers := s.takers[i := Out])
  }

  /** The condition variable may wake a thread for no reason. */
  function WakeUp(s: Sem, i: nat): Sem {
    if i < |s.takers| && s.takers[i].Asleep? then s.(takers := s.takers[i := Asleep(true)]) else s
  }

  /** A signal wakes one of the threads that sleep, if any does. */
  predicate MayWake(s: Sem, i: nat) {
    (i < |s.takers| && s.takers[i] == Asleep(false)) || forall j | 0 <= j < |s.takers| :: s.takers[j] != Asleep(false)
  }

  /** Give signals only if the count was 0. */
  function Give(s: Sem, wake: nat): Sem {
    var woken := if s.count == 0 && s.numWaiting > 0 then WakeUp(s, wake) else s;
    woken.(count := s.count + 1)
  }

  function Sleepers(t: seq<Taker>): nat {
    if t == [] then 0 else Sleepers(t[1..]) + if t[0].Asleep? then 1 else 0
  }

  lemma {:induction false} SleepersUpdate(t: seq<Taker>, i: nat, x: Taker)
    requires i < |t|
    ensures Sleepers(t[i := x]) == Sleepers(t) - (if t[i].Asleep? then 1 else 0) + (if x.Asleep? then 1 else 0)
  {
    if i > 0 {
      SleepersUpdate(t[1..], i - 1, x);
      assert t[i := x][1..] == t[1..][i - 1 := x];
    } else {
      assert t[i := x][1..] == t[1..];
    }
  }

  lemma {:induction false} SleepersNone(t: seq<Taker>)
    ensures Sleepers(t) == 0 <==> forall i | 0 <= i < |t| :: t[i].Out?
  {
    if t != [] { SleepersNone(t[1..]); }
  }

  /** num_waiting counts the threads that sleep. */
  ghost predicate Counted(s: Sem) { s.numWaiting == Sleepers(s.takers) }

  /** Nobody sleeps unwoken beside a permit. */
  ghost predicate NobodyForgotten(s: Sem) {
    forall i | 0 <= i < |s.takers| && s.takers[i] == Asleep(false) :: s.count == 0
  }

  lemma EnterCounted(s: Sem, i: nat)
    requires Counted(s) && i < |s.takers| && s.takers[i].Out?
    ensures Counted(Enter(s, i))
  {
    SleepersUpdate(s.takers, i, Asleep(false));
  }

  lemma RecheckCounted(s: Sem, i: nat)
    requires Counted(s) && i < |s.takers| && s.takers[i].Asleep?
    ensures s.numWaiting > 0 && Counted(Recheck(s, i))
  {
    SleepersUpdate(s.takers, i, Asleep(false));
    SleepersUpdate(s.takers, i, Out);
  }

  lemma GiveCounted(s: Sem, wake: nat)
    requires Counted(s)
    ensures Counted(Give(s, wake))
  {
    if wake < |s.takers| && s.takers[wake].Asleep? { SleepersUpdate(s.takers, wake, Asleep(true)); }
  }

  /** Give forgets nobody exactly if no two threads sleep unwoken. */
  lemma GiveForgetsNobodyIff(s: Sem, wake: nat)
    requires Counted(s) && NobodyForgotten(s) && MayWake(s, wake)
    ensures NobodyForgotten(Give(s, wake)) <==>
            forall i, j | 0 <= i < j < |s.takers| :: s.takers[i] != Asleep(false) || s.takers[j] != Asleep(false)
  {
    SleepersNone(s.takers);
    var t := Give(s, wake);
    if i: nat, j: nat :| i < j < |s.takers| && s.takers[i] == Asleep(false) && s.takers[j] == Asleep(false) {
      var other := if wake == i then j else i;
      assert t.takers[other] == Asleep(false) && t.count > 0;
    }
  }

  /** So with a single thread in Take, Give cannot forget it. */
  lemma GiveWakesTheOne(s: Sem, wake: nat)
    requires Counted(s) && NobodyForgotten(s) && MayWake(s, wake)
    requires forall i, j | 0 <= i < j < |s.takers| :: s.takers[i].Out? || s.takers[j].Out?
    ensures NobodyForgotten(Give(s, wake))
  {
    GiveForgetsNobodyIff(s, wake);
  }

  /** With two threads in Take, it can. Threads 0 and 1 take both permits, 2 and 3 go to sleep,
      both permits come back, but only the first Give signals; thread 2 takes one permit and
      thread 3 sleeps on, unwoken, beside the other. */
  lemma SecondWaiterIsForgotten()
    ensures var s0 := Enter(Enter(Enter(Enter(Create(2, 4), 0), 1), 2), 3);
            var s1 := Give(s0, 2);
            var s2 := Give(s1, 3);
            && MayWake(s0, 2) && MayWake(s1, 3) && s2.numWaiting > 0
            && Recheck(s2, 2) == Sem(2, 1, 1, [Out, Out, Out, Asleep(false)])
  {
    var c := Create(2, 4);
    assert c.takers == [Out, Out, Out, Out];
    var both := Enter(Enter(c, 0), 1);
    assert both == Sem(2, 0, 0, [Out, Out, Out, Out]);
    var s0 := Enter(Enter(both, 2), 3);
    assert s0 == Sem(2, 0, 2, [Out, Out, Asleep(false), Asleep(false)]);
    assert Give(s0, 2) == Sem(2, 1, 2, [Out, Out, Asleep(true), Asleep(false)]);
  }

  /** KineticCountingSemaphore. The methods are the critical sections under its mutex. */
  class CountingSemaphore {
    const max: nat
    var count: nat
    var numWaiting: nat
    ghost var takers: seq<Taker>

    ghost function View(): Sem
      reads this
    {
      Sem(max, count, numWaiting, takers)
    }

    constructor (counts: nat, ghost threads: nat)
      ensures View() == Create(counts, threads)
    {
      max, count, numWaiting := counts, counts, 0;
      takers := seq(threads, _ => Out);
    }

    /** Returns false when the thread has to wait. */
    method BeginTake(ghost i: nat) returns (taken: bool)
      requires i < |takers|
      modifies this
      ensures View() == Enter(old(View()), i) && taken == (old(count) > 0)
    {
      numWaiting := numWaiting + 1;
      if count == 0 {
        takers := takers[i := Asleep(false)];
        return false;
      }
      numWaiting := numWaiting - 1;
      count := count - 1;
      taken := true;
    }

    method ResumeTake(ghost i: nat) returns (taken: bool)
      requires i < |takers| && numWaiting > 0
      modifies this
      ensures View() == Recheck(old(View()), i) && taken == (old(count) > 0)
    {
      if count == 0 {
        takers := takers[i := Asleep(false)];
        return false;
      }
      numWaiting := numWaiting - 1;
      count := count - 1;
      takers := takers[i := Out];
      taken := true;
    }

    /** `ok`: the closing assertion holds. */
    method GiveOne(ghost wake: nat) returns (ok: bool)
      modifies this
      ensures View() == Give(old(View()), wake) && ok == (max >= count)
    {
      if count == 0 && numWaiting > 0 { takers := WakeUp(View(), wake).takers; }
      count := count + 1;
      ok := max >= count;
    }
  }
}

/** A session shared by any number of client threads: the send mutex, the sequence counter,
    the semaphore, and the bytes that reach the socket (src/lib/kinetic_operation.c,
    kinetic_session.c, bus/bus.c, bus/send.c, bus/send_helper.c). */
module Session {
  import opened CountingSemaphores

  /** BUS_NO_SEQ_ID */
  const NO_SEQ_ID := -1

  datatype Message = Message(seqId: nat, bytes: seq<int>)

  /** Where a client thread is inside KineticOperation_SendRequest. */
  datatype Client =
    | Idle
    | Locked
    | Bound(m: Message)                // sequence ID bound, message packed
    | Waiting(m: Message)              // asleep in Take
    | Permitted(m: Message)
    | Boxed(m: Message)
    | Writing(m: Message, sent: nat)   // the listener holds; `sent` bytes are out
    | Written(m: Message)              // the last byte is out
    | Failing(m: Message)              // in Send_HandleFailure
    | Refused                          // Bus_SendRequest returned false
    | Unlocking

  /** What the threads share. `inFlight`: operations handed to the listener or the threadpool
      and not yet complete. History: `wire`, the bytes written; `done`, the messages whose last
      byte is out; `held` and `expected`, the sequence IDs the listener was told to hold and to
      expect; `torn`, a send failed in the middle of a message; `nonMonotonic`, rejections by
      box_msg's check; `failed`, the semaphore's assertion was violated. */
  datatype Shared = Shared(
    sequence: nat, sem: Sem, largest: int, inFlight: set<nat>,
    wire: seq<int>, done: seq<Message>, held: set<nat>, expected: seq<nat>,
    torn: bool, nonMonotonic: nat, failed: bool)

  /** `owner`: the client that holds the send mutex. */
  datatype State = State(clients: seq<Client>, owner: int, d: Shared)

  const NOBODY := -1

  datatype Move =
    | Lock(i: nat)
    | Act(i: nat, a: Action)
    | Spurious(i: nat)
    | Complete(op: nat, wake: nat)      // KineticOperation_Complete on a threadpool thread

  /** What the owner of the send mutex does next. */
  datatype Action =
    | Bind(bytes: seq<int>)
    | PackFails
    | Take
    | Resume
    | Box(registered: bool)
    | HoldFails
    | HoldDone
    | Write(n: nat)
    | SendFails
    | Expect
    | FailureAccepted
    | GiveBack(wake: nat)
    | Unlock

  function Init(threads: nat, max: nat): State {
    State(seq(threads, _ => Idle), NOBODY,
          Shared(0, Create(max, threads), NO_SEQ_ID, {}, [], [], {}, [], false, 0, false))
  }

  /** Give, with the assertion that follows it. */
  function Release(d: Shared, wake: nat): Shared {
    var sem := Give(d.sem, wake);
    d.(sem := sem, failed := d.failed || sem.max < sem.count)
  }

  datatype Local = Local(c: Client, d: Shared)

  /** box_msg: an unregistered socket or a sequence ID that does not increase is rejected. */
  function BoxMsg(m: Message, d: Shared, registered: bool): Local {
    if !registered then Local(Refused, d)
    else if m.seqId <= d.largest && d.largest != NO_SEQ_ID then Local(Refused, d.(nonMonotonic := d.nonMonotonic + 1))
    else Local(Boxed(m), d.(largest := m.seqId))
  }

  /** SendHelper_HandleWrite after n more bytes went out. */
  function HandleWrite(m: Message, sent: nat, d: Shared, n: nat): Local
    requires sent + n <= |m.bytes|
  {
    var wire := d.wire + m.bytes[sent..sent + n];
    if sent + n == |m.bytes| then Local(Written(m), d.(wire := wire, done := d.done + [m]))
    else Local(Writing(m, sent + n), d.(wire := wire))
  }

  /** One step of client i; an action that does not fit its place leaves everything alone. */
  function ClientStep(c: Client, d: Shared, i: nat, a: Action): Local
    requires i < |d.sem.takers|
  {
    match (a, c)
    case (Bind(bytes), Locked) =>
      if bytes != [] then Local(Bound(Message(d.sequence, bytes)), d.(sequence := d.sequence + 1)) else Local(c, d)
    case (PackFails, Locked) => Local(Unlocking, d.(sequence := d.sequence + 1))
    case (Take, Bound(m)) =>
      Local(if d.sem.count == 0 then Waiting(m) else Permitted(m), d.(sem := Enter(d.sem, i)))
    case (Resume, Waiting(m)) =>
      if d.sem.takers[i] == Asleep(true) && d.sem.numWaiting > 0 then
        Local(if d.sem.count == 0 then c else Permitted(m), d.(sem := Recheck(d.sem, i)))
      else Local(c, d)
    case (Box(registered), Permitted(m)) => BoxMsg(m, d, registered)
    case (HoldFails, Boxed(_)) => Local(Refused, d)
    case (HoldDone, Boxed(m)) => Local(Writing(m, 0), d.(held := d.held + {m.seqId}))
    case (Write(n), Writing(m, sent)) =>
      if sent + n <= |m.bytes| then HandleWrite(m, sent, d, n) else Local(c, d)
    case (SendFails, Writing(m, sent)) => Local(Failing(m), d.(torn := d.torn || sent > 0))
    case (SendFails, Written(m)) => Local(Failing(m), d)
    case (Expect, Written(m)) =>
      Local(Unlocking, d.(expected := d.expected + [m.seqId], inFlight := d.inFlight + {m.seqId}))
    case (FailureAccepted, Failing(m)) => Local(Unlocking, d.(inFlight := d.inFlight + {m.seqId}))
    case (GiveBack(wake), Refused) => if MayWake(d.sem, wake) then Local(Unlocking, Release(d, wake)) else Local(c, d)
    case (Unlock, Unlocking) => Local(Idle, d)
    case _ => Local(c, d)
  }

  function Do(s: State, m: Move): (r: State)
    requires |s.d.sem.takers| == |s.clients|
    ensures |r.d.sem.takers| == |r.clients| == |s.clients| && r.d.sem.max == s.d.sem.max
  {
    match m
    case Lock(i) =>
      if i < |s.clients| && s.clients[i].Idle? && s.owner == NOBODY
      then State(s.clients[i := Locked], i, s.d) else s
    case Act(i, a) =>
      if i < |s.clients| then
        var r := ClientStep(s.clients[i], s.d, i, a);
        State(s.clients[i := r.c], if a.Unlock? && s.clients[i].Unlocking? then NOBODY else s.owner, r.d)
      else s
    case Spurious(i) => s.(d := s.d.(sem := WakeUp(s.d.sem, i)))
    case Complete(op, wake) =>
      if op in s.d.inFlight && MayWake(s.d.sem, wake)
      then s.(d := Release(s.d.(inFlight := s.d.inFlight - {op}), wake)) else s
  }

  // ---------------------------------------------------------------------------
  // The invariant

  function Active(s: State): Client { if 0 <= s.owner < |s.clients| then s.clients[s.owner] else Idle }

  /** Only the owner of the send mutex is past LockSend. */
  ghost predicate Exclusive(s: State) {
    && |s.d.sem.takers| == |s.clients|
    && (s.owner == NOBODY || 0 <= s.owner < |s.clients|)
    && (forall i | 0 <= i < |s.clients| :: s.clients[i].Idle? <==> i != s.owner)
  }

  /** Only the owner can be inside Take. */
  ghost predicate Alone(sem: Sem, owner: int, c: Client) {
    forall j | 0 <= j < |sem.takers| :: sem.takers[j].Asleep? <==> j == owner && c.Waiting?
  }

  predicate HasPermit(c: Client) {
    c.Permitted? || c.Boxed? || c.Writing? || c.Written? || c.Failing? || c.Refused?
  }

  /** Operations between Take and Give. */
  function Outstanding(c: Client, d: Shared): nat {
    |d.inFlight| + if HasPermit(c) then 1 else 0
  }

  ghost predicate Throttled(c: Client, d: Shared) {
    d.sem.count + Outstanding(c, d) == d.sem.max && !d.failed && Counted(d.sem) && NobodyForgotten(d.sem)
  }

  predicate HasMessage(c: Client) {
    !(c.Idle? || c.Locked? || c.Refused? || c.Unlocking?)
  }

  predicate BeforeBox(c: Client) { c.Bound? || c.Waiting? || c.Permitted? }

  /** Sequence IDs grow with the counter; the owner's is the newest. */
  ghost predicate SequenceOk(c: Client, d: Shared) {
    && NO_SEQ_ID <= d.largest < d.sequence && d.nonMonotonic == 0
    && (forall q | q in d.inFlight :: q <= d.largest)
    && (HasMessage(c) ==>
          && c.m.bytes != [] && c.m.seqId < d.sequence && c.m.seqId !in d.inFlight
          && (if BeforeBox(c) then d.largest < c.m.seqId else c.m.seqId == d.largest))
  }

  function Concat(ms: seq<Message>): seq<int> {
    if ms == [] then [] else Concat(ms[..|ms| - 1]) + ms[|ms| - 1].bytes
  }

  /** The part of the owner's message that is out. */
  function Partial(c: Client): seq<int> {
    if c.Writing? && c.sent <= |c.m.bytes| then c.m.bytes[..c.sent] else []
  }

  ghost predicate WireOk(c: Client, d: Shared) {
    && (!d.torn ==> d.wire == Concat(d.done) + Partial(c))
    && (c.Writing? ==> c.sent < |c.m.bytes| && c.m.seqId in d.held)
    && (c.Written? ==> d.done != [] && d.done[|d.done| - 1] == c.m)
  }

  /** Messages go out in the order of their sequence IDs, each after its HOLD. */
  ghost predicate OrderOk(c: Client, d: Shared) {
    && (forall j, k | 0 <= j < k < |d.done| :: d.done[j].seqId < d.done[k].seqId)
    && (forall k | 0 <= k < |d.done| :: d.done[k].seqId in d.held && d.done[k].seqId <= d.largest)
    && (c.Boxed? || c.Writing? ==> forall k | 0 <= k < |d.done| :: d.done[k].seqId < d.largest)
  }

  ghost predicate IsDone(d: Shared, q: nat) {
    exists k | 0 <= k < |d.done| :: d.done[k].seqId == q
  }

  /** EXPECTs are enqueued in order too, and only for messages whose last byte is out. */
  ghost predicate ExpectOk(c: Client, d: Shared) {
    && (forall k | 0 <= k < |d.expected| :: d.expected[k] <= d.largest && IsDone(d, d.expected[k]))
    && (forall j, k | 0 <= j < k < |d.expected| :: d.expected[j] < d.expected[k])
    && (HasMessage(c) ==> forall k | 0 <= k < |d.expected| :: d.expected[k] < c.m.seqId)
  }

  ghost predicate Good(c: Client, d: Shared) {
    SequenceOk(c, d) && WireOk(c, d) && OrderOk(c, d) && ExpectOk(c, d)
  }

  ghost predicate Inv(s: State) {
    Exclusive(s) && Alone(s.d.sem, s.owner, Active(s)) && Throttled(Active(s), s.d) && Good(Active(s), s.d)
  }

  lemma InitInv(threads: nat, max: nat)
    ensures Inv(Init(threads, max))
  {
    SleepersNone(Init(threads, max).d.sem.takers);
  }

  /** The owner's step keeps it alone in Take. */
  lemma StepAlone(c: Client, d: Shared, i: nat, a: Action)
    requires i < |d.sem.takers| && Alone(d.sem, i, c)
    ensures var r := ClientStep(c, d, i, a); |r.d.sem.takers| == |d.sem.takers| && Alone(r.d.sem, i, r.c)
  {
  }

  /** Steps that do not touch the semaphore hand the permit on. */
  lemma StepHandsOn(c: Client, d: Shared, i: nat, a: Action)
    requires i < |d.sem.takers| && SequenceOk(c, d) && !(a.Take? || a.Resume? || a.GiveBack?)
    ensures var r := ClientStep(c, d, i, a);
            r.d.sem == d.sem && r.d.failed == d.failed && Outstanding(r.c, r.d) == Outstanding(c, d)
  {
  }

  lemma StepThrottled(c: Client, d: Shared, i: nat, a: Action)
    requires i < |d.sem.takers| && Alone(d.sem, i, c) && Throttled(c, d) && SequenceOk(c, d)
    ensures var r := ClientStep(c, d, i, a); Throttled(r.c, r.d)
  {
    match (a, c)
    case (Take, Bound(_)) => EnterCounted(d.sem, i);
    case (Resume, Waiting(_)) => RecheckCounted(d.sem, i);
    case (GiveBack(wake), Refused) =>
      GiveCounted(d.sem, wake);
      if MayWake(d.sem, wake) { GiveWakesTheOne(d.sem, wake); }
      hide Counted, SequenceOk;
    case _ =>
      hide Counted, NobodyForgotten;
      if !(a.Take? || a.Resume? || a.GiveBack?) {
        StepHandsOn(c, d, i, a);
        hide ClientStep, Outstanding;
      }
  }

  lemma StepSequence(c: Client, d: Shared, i: nat, a: Action)
    requires i < |d.sem.takers| && SequenceOk(c, d)
    ensures var r := ClientStep(c, d, i, a); SequenceOk(r.c, r.d)
  {
  }

  lemma ConcatAppend(ms: seq<Message>, m: Message)
    ensures Concat(ms + [m]) == Concat(ms) + m.bytes
  {
    assert (ms + [m])[..|ms|] == ms;
  }

  lemma WriteKeepsWire(m: Message, sent: nat, d: Shared, n: nat)
    requires sent + n <= |m.bytes| && WireOk(Writing(m, sent), d)
    ensures var r := HandleWrite(m, sent, d, n); WireOk(r.c, r.d)
  {
    hide Concat;
    var w, b := Concat(d.done), m.bytes;
    assert (w + b[..sent]) + b[sent..sent + n] == w + b[..sent + n];
    ConcatAppend(d.done, m);
    assert b[..|b|] == b && w + b + [] == w + b;
  }

  lemma StepWire(c: Client, d: Shared, i: nat, a: Action)
    requires i < |d.sem.takers| && SequenceOk(c, d) && WireOk(c, d)
    ensures var r := ClientStep(c, d, i, a); WireOk(r.c, r.d)
  {
    hide Concat, HandleWrite;
    if a.Write? && c.Writing? {
      if c.sent + a.n <= |c.m.bytes| { WriteKeepsWire(c.m, c.sent, d, a.n); }
    } else {
      var r := ClientStep(c, d, i, a);
      assert r.d.torn || (Partial(r.c) == Partial(c) && r.d.wire == d.wire && r.d.done == d.done);
    }
  }

  lemma StepOrder(c: Client, d: Shared, i: nat, a: Action)
    requires i < |d.sem.takers| && Good(c, d)
    ensures var r := ClientStep(c, d, i, a); OrderOk(r.c, r.d)
  {
    hide ExpectOk, Concat, Partial;
  }

  lemma DoneGrows(d: Shared, e: Shared)
    requires d.done <= e.done
    ensures forall q :: IsDone(d, q) ==> IsDone(e, q)
    ensures d.done != [] ==> IsDone(e, d.done[|d.done| - 1].seqId)
  {
    forall q | IsDone(d, q) ensures IsDone(e, q) {
      var k :| 0 <= k < |d.done| && d.done[k].seqId == q;
      assert e.done[k].seqId == q;
    }
    if d.done != [] { assert e.done[|d.done| - 1] == d.done[|d.done| - 1]; }
  }

  /** What other steps leave of the facts about EXPECT. */
  lemma StepGrows(c: Client, d: Shared, i: nat, a: Action)
    requires i < |d.sem.takers| && SequenceOk(c, d) && !(a.Expect? && c.Written?)
    ensures var r := ClientStep(c, d, i, a);
            && r.d.expected == d.expected && d.done <= r.d.done && d.largest <= r.d.largest
            && (HasMessage(r.c) ==> (HasMessage(c) && r.c.m == c.m) || d.largest < r.c.m.seqId)
  {
  }

  lemma StepExpect(c: Client, d: Shared, i: nat, a: Action)
    requires i < |d.sem.takers| && Good(c, d)
    ensures var r := ClientStep(c, d, i, a); ExpectOk(r.c, r.d)
  {
    var r := ClientStep(c, d, i, a);
    if a.Expect? && c.Written? {
      DoneGrows(d, r.d);
      hide IsDone, OrderOk;
    } else {
      StepGrows(c, d, i, a);
      DoneGrows(d, r.d);
      hide ClientStep, IsDone, OrderOk, WireOk;
    }
  }

  lemma ClientStepKeeps(c: Client, d: Shared, i: nat, a: Action)
    requires i < |d.sem.takers| && Good(c, d)
    ensures var r := ClientStep(c, d, i, a); Good(r.c, r.d)
  {
    StepSequence(c, d, i, a);
    StepWire(c, d, i, a);
    StepOrder(c, d, i, a);
    StepExpect(c, d, i, a);
  }

  lemma ActKeeps(s: State, i: nat, a: Action)
    requires Inv(s)
    ensures Inv(Do(s, Act(i, a)))
  {
    if i == s.owner {
      StepAlone(s.clients[i], s.d, i, a);
      StepThrottled(s.clients[i], s.d, i, a);
      ClientStepKeeps(s.clients[i], s.d, i, a);
      OwnerStays(s.clients[i], s.d, i, a);
      hide ClientStep, Throttled, Good;
    } else if i < |s.clients| {
      assert s.clients[i := Idle] == s.clients;
    }
  }

  /** A step neither enters nor leaves the locked region, except to unlock. */
  lemma OwnerStays(c: Client, d: Shared, i: nat, a: Action)
    requires i < |d.sem.takers| && !c.Idle?
    ensures ClientStep(c, d, i, a).c.Idle? <==> a.Unlock? && c.Unlocking?
  {
  }

  lemma CompleteKeeps(s: State, op: nat, wake: nat)
    requires Inv(s)
    ensures Inv(Do(s, Complete(op, wake)))
  {
    if op in s.d.inFlight && MayWake(s.d.sem, wake) {
      GiveCounted(s.d.sem, wake);
      GiveWakesTheOne(s.d.sem, wake);
      hide Counted, NobodyForgotten;
    }
  }

  lemma SpuriousKeeps(s: State, i: nat)
    requires Inv(s)
    ensures Inv(Do(s, Spurious(i)))
  {
    if i < |s.clients| && s.d.sem.takers[i].Asleep? { SleepersUpdate(s.d.sem.takers, i, Asleep(true)); }
  }

  /** Every move of every thread keeps the invariant. */
  lemma StepKeepsInv(s: State, m: Move)
    requires Inv(s)
    ensures Inv(Do(s, m))
  {
    match m
    case Lock(_) =>
    case Act(i, a) => ActKeeps(s, i, a);
    case Spurious(i) => SpuriousKeeps(s, i);
    case Complete(op, wake) => CompleteKeeps(s, op, wake);
  }

  // ---------------------------------------------------------------------------
  // Whole runs

  /** The session after any moves of its threads. */
  function Exec(s: State, moves: seq<Move>): (r: State)
    requires |s.d.sem.takers| == |s.clients|
    ensures |r.d.sem.takers| == |r.clients| == |s.clients| && r.d.sem.max == s.d.sem.max
  {
    if moves == [] then s else Do(Exec(s, moves[..|moves| - 1]), moves[|moves| - 1])
  }

  lemma {:induction false} RunKeepsInv(threads: nat, max: nat, moves: seq<Move>)
    ensures Inv(Exec(Init(threads, max), moves))
  {
    hide Do, Inv;
    if moves == [] {
      InitInv(threads, max);
    } else {
      RunKeepsInv(threads, max, moves[..|moves| - 1]);
      StepKeepsInv(Exec(Init(threads, max), moves[..|moves| - 1]), moves[|moves| - 1]);
    }
  }

  /** Conservation: in every run, permits and operations between Take and Give add up to the
      maximum, so the assertion after Give never fires. */
  lemma PermitsConserved(threads: nat, max: nat, moves: seq<Move>)
    ensures var s := Exec(Init(threads, max), moves);
            s.d.sem.count + Outstanding(Active(s), s.d) == max && !s.d.failed
  {
    RunKeepsInv(threads, max, moves);
  }

  /** No lost wakeup: in every run, a thread that sleeps in Take beside an available permit has
      already been woken, and its next step takes the permit. */
  lemma SleeperGetsPermit(threads: nat, max: nat, moves: seq<Move>, i: nat)
    requires var s := Exec(Init(threads, max), moves); i < threads && s.clients[i].Waiting? && s.d.sem.count > 0
    ensures var s := Exec(Init(threads, max), moves);
            s.d.sem.takers[i] == Asleep(true) && Do(s, Act(i, Resume)).clients[i] == Permitted(s.clients[i].m)
  {
    RunKeepsInv(threads, max, moves);
    var s := Exec(Init(threads, max), moves);
    hide Exec;
    RecheckCounted(s.d.sem, i);
  }

  /** Wire order: in every run, no request is rejected as non-monotonic; while no send has
      failed in the middle of a message, the bytes on the wire are whole messages in the order
      of their sequence IDs and then a part of one more; HOLD precedes the first byte of a
      message and EXPECT follows its last. */
  lemma WireIsWholeMessages(threads: nat, max: nat, moves: seq<Move>)
    ensures var s := Exec(Init(threads, max), moves); var d := s.d;
            && d.nonMonotonic == 0
            && (!d.torn ==> Concat(d.done) <= d.wire && d.wire == Concat(d.done) + Partial(Active(s)))
            && (forall j, k | 0 <= j < k < |d.done| :: d.done[j].seqId < d.done[k].seqId)
            && (forall k | 0 <= k < |d.done| :: d.done[k].seqId in d.held)
            && (Partial(Active(s)) != [] ==>
                  && Active(s).m.seqId in d.held
                  && forall k | 0 <= k < |d.done| :: d.done[k].seqId < Active(s).m.seqId)
            && (forall k | 0 <= k < |d.expected| :: IsDone(d, d.expected[k]))
            && (forall j, k | 0 <= j < k < |d.expected| :: d.expected[j] < d.expected[k])
  {
    RunKeepsInv(threads, max, moves);
    var s := Exec(Init(threads, max), moves);
    hide Exec;
    assert Good(Active(s), s.d);
  }

  // ---------------------------------------------------------------------------
  // What the clients bound is what goes out

  /** The messages bound so far: sequence ID and bytes, as the clients asked for them. */
  function BoundMessages(s: State, moves: seq<Move>): seq<Message>
    requires |s.d.sem.takers| == |s.clients|
  {
    if moves == [] then []
    else
      var before, m := moves[..|moves| - 1], moves[|moves| - 1];
      var t := Exec(s, before);
      BoundMessages(s, before) +
      if m.Act? && m.a.Bind? && m.i < |t.clients| && t.clients[m.i].Locked? && m.a.bytes != []
      then [Message(t.d.sequence, m.a.bytes)] else []
  }

  ghost predicate AllBound(s: State, ms: seq<Message>) {
    && (forall k | 0 <= k < |s.d.done| :: s.d.done[k] in ms)
    && (HasMessage(Active(s)) ==> Active(s).m in ms)
    && (forall k | 0 <= k < |ms| :: ms[k].seqId < s.d.sequence)
    && (forall j, k | 0 <= j < k < |ms| :: ms[j].seqId < ms[k].seqId)
  }

  /** What a client step adds: the message it binds, or one it was busy with already. */
  lemma StepBinds(c: Client, d: Shared, i: nat, a: Action)
    requires i < |d.sem.takers|
    ensures var r, binds := ClientStep(c, d, i, a), a.Bind? && c.Locked? && a.bytes != [];
            && (binds ==> r.c == Bound(Message(d.sequence, a.bytes)))
            && (binds ==> r.d.done == d.done && r.d.sequence == d.sequence + 1)
            && (!binds ==> (HasMessage(r.c) ==> HasMessage(c) && r.c.m == c.m) && r.d.sequence >= d.sequence)
            && (!binds ==> r.d.done == d.done || (HasMessage(c) && r.d.done == d.done + [c.m]))
  {
  }

  lemma ActBound(s: State, i: nat, a: Action, ms: seq<Message>)
    requires Inv(s) && AllBound(s, ms) && i < |s.clients|
    ensures var binds := a.Bind? && s.clients[i].Locked? && a.bytes != [];
            AllBound(Do(s, Act(i, a)), ms + if binds then [Message(s.d.sequence, a.bytes)] else [])
  {
    StepBinds(s.clients[i], s.d, i, a);
    if i == s.owner {
      OwnerStays(s.clients[i], s.d, i, a);
      var t := Do(s, Act(i, a));
      assert Active(t) == ClientStep(s.clients[i], s.d, i, a).c;
      hide ClientStep, Inv;
    } else {
      assert Do(s, Act(i, a)) == s;
      assert ms + [] == ms;
    }
  }

  lemma StepBound(s: State, m: Move, ms: seq<Message>)
    requires Inv(s) && AllBound(s, ms) && !(m.Act? && m.i < |s.clients|)
    ensures AllBound(Do(s, m), ms)
  {
  }

  lemma {:induction false} RunBound(threads: nat, max: nat, moves: seq<Move>)
    ensures AllBound(Exec(Init(threads, max), moves), BoundMessages(Init(threads, max), moves))
  {
    var s0 := Init(threads, max);
    if moves != [] {
      var before, m := moves[..|moves| - 1], moves[|moves| - 1];
      RunBound(threads, max, before);
      RunKeepsInv(threads, max, before);
      var s, ms := Exec(s0, before), BoundMessages(s0, before);
      hide Do, Inv, AllBound;
      if m.Act? && m.i < |s.clients| {
        ActBound(s, m.i, m.a, ms);
      } else {
        assert ms + [] == ms;
        StepBound(s, m, ms);
      }
    }
  }

  /** In every run: each message whose last byte is out is one that a client bound, with the same
      bytes; and the bound ones, like those that are out, are in the order of their sequence IDs,
      so that what is out is a subsequence of what was bound. */
  lemma DoneWasBound(threads: nat, max: nat, moves: seq<Move>)
    ensures var s, ms := Exec(Init(threads, max), moves), BoundMessages(Init(threads, max), moves);
            && (forall k | 0 <= k < |s.d.done| :: s.d.done[k] in ms)
            && (forall j, k | 0 <= j < k < |ms| :: ms[j].seqId < ms[k].seqId)
            && (forall j, k | 0 <= j < k < |s.d.done| :: s.d.done[j].seqId < s.d.done[k].seqId)
  {
    RunBound(threads, max, moves);
    WireIsWholeMessages(threads, max, moves);
  }

  // ---------------------------------------------------------------------------
  // Permits come back

  /** Completing an operation in flight gives its permit back. */
  lemma CompleteGivesBack(s: State, op: nat, wake: nat)
    requires Inv(s) && op in s.d.inFlight && MayWake(s.d.sem, wake)
    ensures var t := Do(s, Complete(op, wake));
            && op !in t.d.inFlight && |t.d.inFlight| == |s.d.inFlight| - 1
            && t.d.sem.count == s.d.sem.count + 1 && t.clients == s.clients && t.owner == s.owner && !t.d.failed
  {
    assert Outstanding(Active(s), s.d) >= |s.d.inFlight| >= 1;
  }

  lemma SomeWake(sem: Sem) returns (wake: nat)
    ensures MayWake(sem, wake)
  {
    if i: nat :| i < |sem.takers| && sem.takers[i] == Asleep(false) { wake := i; } else { wake := 0; }
  }

  lemma {:induction false} ExecFirst(s: State, m: Move, rest: seq<Move>)
    requires |s.d.sem.takers| == |s.clients|
    ensures Exec(s, [m] + rest) == Exec(Do(s, m), rest)
  {
    hide Do;
    if rest == [] {
      assert [m] + rest == [m] && [m][..0] == [];
      assert Exec(s, []) == s;
    } else {
      var n := |rest| - 1;
      ExecFirst(s, m, rest[..n]);
      assert ([m] + rest)[..|[m] + rest| - 1] == [m] + rest[..n];
    }
  }

  /** From every reachable state everything in flight can be completed; then all permits are back,
      but for the one the owner of the mutex may hold. */
  lemma {:induction false} AllPermitsReturn(s: State) returns (moves: seq<Move>)
    requires Inv(s)
    ensures forall k | 0 <= k < |moves| :: moves[k].Complete?
    ensures var t := Exec(s, moves);
            && t.d.inFlight == {} && t.owner == s.owner && t.clients == s.clients
            && t.d.sem.count == s.d.sem.max - if HasPermit(Active(s)) then 1 else 0
    decreases |s.d.inFlight|
  {
    if s.d.inFlight == {} { return []; }
    var op :| op in s.d.inFlight;
    var wake := SomeWake(s.d.sem);
    var m := Complete(op, wake);
    CompleteGivesBack(s, op, wake);
    StepKeepsInv(s, m);
    assert Active(Do(s, m)) == Active(s);
    hide Do, Inv;
    var rest := AllPermitsReturn(Do(s, m));
    ExecFirst(s, m, rest);
    moves := [m] + rest;
  }

  lemma TakeSleeps(s: State, i: nat)
    requires Inv(s) && s.owner == i && i < |s.clients| && s.clients[i].Bound? && s.d.sem.count == 0
    ensures var t := Do(s, Act(i, Take));
            && t == State(s.clients[i := Waiting(s.clients[i].m)], i, s.d.(sem := Enter(s.d.sem, i)))
            && t.d.sem.takers[i] == Asleep(false) && t.d.sem.count == 0 && t.d.sem.numWaiting > 0
  {
  }

  /** A client that finds no permit goes to sleep; the next operation to complete wakes it, and it
      takes that operation's permit. */
  lemma BlockedTakeResumes(s: State, i: nat, op: nat)
    requires Inv(s) && s.owner == i && i < |s.clients| && s.clients[i].Bound? && s.d.sem.count == 0
    requires op in s.d.inFlight
    ensures var t1 := Do(s, Act(i, Take));
            var t2 := Do(t1, Complete(op, i));
            var t3 := Do(t2, Act(i, Resume));
            && t1.clients[i] == Waiting(s.clients[i].m) && t2.d.sem.takers[i] == Asleep(true)
            && t3.clients[i] == Permitted(s.clients[i].m) && t3.d.sem.count == 0 && op !in t3.d.inFlight
  {
    TakeSleeps(s, i);
    hide Inv;
    var t1 := Do(s, Act(i, Take));
    var t2 := Do(t1, Complete(op, i));
    assert t2.d.sem.count == 1 && t2.d.sem.takers[i] == Asleep(true) && t2.clients == t1.clients;
  }

  // ---------------------------------------------------------------------------
  // Whole calls

  /** The session with client i at c, holding the mutex. */
  function Busy(s: State, i: nat, c: Client, d: Shared): State
    requires i < |s.clients|
  {
    State(s.clients[i := c], i, d)
  }

  lemma BusyStep(s: State, i: nat, c: Client, d: Shared, a: Action)
    requires i < |s.clients| == |d.sem.takers| && !a.Unlock?
    ensures var r := ClientStep(c, d, i, a); Do(Busy(s, i, c, d), Act(i, a)) == Busy(s, i, r.c, r.d)
  {
    hide ClientStep;
    var r := ClientStep(c, d, i, a);
    assert s.clients[i := c][i := r.c] == s.clients[i := r.c];
  }

  lemma Unlocks(s: State, i: nat, d: Shared)
    requires i < |s.clients| == |d.sem.takers| && s.clients[i].Idle? && s.owner == NOBODY
    ensures Do(Busy(s, i, Unlocking, d), Act(i, Unlock)) == s.(d := d)
  {
    assert s.clients[i := Unlocking][i := Idle] == s.clients;
  }

  /** The moves from the left: the state after each is where the rest starts. */
  function Play(s: State, moves: seq<Move>): (r: State)
    requires |s.d.sem.takers| == |s.clients|
    ensures |r.d.sem.takers| == |r.clients| == |s.clients|
    decreases |moves|
  {
    if moves == [] then s else Play(Do(s, moves[0]), moves[1..])
  }

  lemma {:induction false} PlayIsExec(s: State, moves: seq<Move>)
    requires |s.d.sem.takers| == |s.clients|
    ensures Play(s, moves) == Exec(s, moves)
    decreases |moves|
  {
    hide Do;
    if moves != [] {
      PlayIsExec(Do(s, moves[0]), moves[1..]);
      ExecFirst(s, moves[0], moves[1..]);
      assert [moves[0]] + moves[1..] == moves;
    }
  }

  lemma {:induction false} PlayAppend(s: State, a: seq<Move>, b: seq<Move>)
    requires |s.d.sem.takers| == |s.clients|
    ensures Play(s, a + b) == Play(Play(s, a), b)
    decreases |a|
  {
    hide Do;
    if a == [] {
      assert a + b == b;
    } else {
      PlayAppend(Do(s, a[0]), a[1..], b);
      assert (a + b)[1..] == a[1..] + b;
    }
  }

  lemma PlayThree(s: State, a: Move, b: Move, c: Move)
    requires |s.d.sem.takers| == |s.clients|
    ensures Play(s, [a, b, c]) == Do(Do(Do(s, a), b), c)
  {
    hide Do;
    assert [a, b, c][1..] == [b, c] && [b, c][1..] == [c] && [c][1..] == [];
    assert Play(Do(s, a), [b, c]) == Play(Do(Do(s, a), b), [c]);
  }

  function PrepareMoves(i: nat, bytes: seq<int>): seq<Move> { [Lock(i), Act(i, Bind(bytes)), Act(i, Take)] }

  /** What the session shares once the message is bound and a permit taken. */
  function Prepared(s: State, i: nat): Shared
    requires i < |s.d.sem.takers|
  {
    s.d.(sequence := s.d.sequence + 1, sem := Enter(s.d.sem, i))
  }

  /** Nobody holds the mutex, so every client is idle. */
  lemma FreeSession(s: State, i: nat)
    requires Inv(s) && s.owner == NOBODY && i < |s.clients|
    ensures s.clients[i].Idle? && |s.d.sem.takers| == |s.clients| && s.d.largest < s.d.sequence
  {
  }

  lemma Prepares(s: State, i: nat, bytes: seq<int>)
    requires Inv(s) && s.owner == NOBODY && i < |s.clients| && s.d.sem.count > 0 && bytes != []
    ensures Play(s, PrepareMoves(i, bytes)) == Busy(s, i, Permitted(Message(s.d.sequence, bytes)), Prepared(s, i))
    ensures Prepared(s, i).sem.count == s.d.sem.count - 1 && |Prepared(s, i).sem.takers| == |s.clients|
  {
    FreeSession(s, i);
    hide Inv;
    var m, d1 := Message(s.d.sequence, bytes), s.d.(sequence := s.d.sequence + 1);
    assert Do(s, Lock(i)) == Busy(s, i, Locked, s.d);
    BusyStep(s, i, Locked, s.d, Bind(bytes));
    BusyStep(s, i, Bound(m), d1, Take);
    hide Do;
    PlayThree(s, Lock(i), Act(i, Bind(bytes)), Act(i, Take));
  }

  function WriteMoves(i: nat, n: nat): seq<Move> { [Act(i, Box(true)), Act(i, HoldDone), Act(i, Write(n))] }

  /** Boxed, held, and n bytes written. */
  lemma Writes(s: State, i: nat, m: Message, d: Shared, n: nat)
    requires i < |s.clients| == |d.sem.takers| && d.largest < m.seqId && n <= |m.bytes| && m.bytes != []
    ensures var r := HandleWrite(m, 0, d.(largest := m.seqId, held := d.held + {m.seqId}), n);
            Play(Busy(s, i, Permitted(m), d), WriteMoves(i, n)) == Busy(s, i, r.c, r.d)
  {
    var d1 := d.(largest := m.seqId);
    var d2 := d1.(held := d.held + {m.seqId});
    BusyStep(s, i, Permitted(m), d, Box(true));
    BusyStep(s, i, Boxed(m), d1, HoldDone);
    BusyStep(s, i, Writing(m, 0), d2, Write(n));
    hide Do;
    PlayThree(Busy(s, i, Permitted(m), d), Act(i, Box(true)), Act(i, HoldDone), Act(i, Write(n)));
  }

  lemma PlayTwo(s: State, a: Move, b: Move)
    requires |s.d.sem.takers| == |s.clients|
    ensures Play(s, [a, b]) == Do(Do(s, a), b)
  {
    hide Do;
    assert [a, b][1..] == [b] && [b][1..] == [];
    assert Play(Do(s, a), [b]) == Play(Do(Do(s, a), b), []);
  }

  function ExpectMoves(i: nat): seq<Move> { [Act(i, Expect), Act(i, Unlock)] }

  function FailMoves(i: nat): seq<Move> { [Act(i, SendFails), Act(i, FailureAccepted), Act(i, Unlock)] }

  /** Rejected by box_msg, or when the HOLD is not taken. */
  function RejectMoves(i: nat, boxed: bool, wake: nat): seq<Move> {
    (if boxed then [Act(i, Box(true)), Act(i, HoldFails)] else [Act(i, Box(false))])
    + [Act(i, GiveBack(wake)), Act(i, Unlock)]
  }

  lemma EndsExpecting(s: State, i: nat, m: Message, d: Shared)
    requires i < |s.clients| == |d.sem.takers| && s.clients[i].Idle? && s.owner == NOBODY
    ensures Play(Busy(s, i, Written(m), d), ExpectMoves(i)) ==
              s.(d := d.(expected := d.expected + [m.seqId], inFlight := d.inFlight + {m.seqId}))
  {
    BusyStep(s, i, Written(m), d, Expect);
    Unlocks(s, i, d.(expected := d.expected + [m.seqId], inFlight := d.inFlight + {m.seqId}));
    hide Do;
    PlayTwo(Busy(s, i, Written(m), d), Act(i, Expect), Act(i, Unlock));
  }

  /** Part of the message is out, or all of it. */
  function Sending(m: Message, sent: nat): Client {
    if sent == |m.bytes| then Written(m) else Writing(m, sent)
  }

  lemma EndsFailing(s: State, i: nat, m: Message, sent: nat, d: Shared)
    requires i < |s.clients| == |d.sem.takers| && s.clients[i].Idle? && s.owner == NOBODY
    ensures Play(Busy(s, i, Sending(m, sent), d), FailMoves(i)) ==
              s.(d := d.(torn := d.torn || (0 < sent && sent != |m.bytes|), inFlight := d.inFlight + {m.seqId}))
  {
    var d1 := d.(torn := d.torn || (0 < sent && sent != |m.bytes|));
    BusyStep(s, i, Sending(m, sent), d, SendFails);
    BusyStep(s, i, Failing(m), d1, FailureAccepted);
    Unlocks(s, i, d1.(inFlight := d.inFlight + {m.seqId}));
    hide Do;
    PlayThree(Busy(s, i, Sending(m, sent), d), Act(i, SendFails), Act(i, FailureAccepted), Act(i, Unlock));
  }

  /** The sequence ID that box_msg has seen stays seen, even if the HOLD then fails. */
  function Seen(m: Message, d: Shared, boxed: bool): Shared { if boxed then d.(largest := m.seqId) else d }

  lemma Refuses(s: State, i: nat, m: Message, d: Shared, boxed: bool)
    requires i < |s.clients| == |d.sem.takers| && d.largest < m.seqId
    ensures var first := if boxed then [Act(i, Box(true)), Act(i, HoldFails)] else [Act(i, Box(false))];
            Play(Busy(s, i, Permitted(m), d), first) == Busy(s, i, Refused, Seen(m, d, boxed))
  {
    BusyStep(s, i, Permitted(m), d, Box(boxed));
    BusyStep(s, i, Boxed(m), Seen(m, d, boxed), HoldFails);
    hide Do;
    if boxed {
      PlayTwo(Busy(s, i, Permitted(m), d), Act(i, Box(true)), Act(i, HoldFails));
    } else {
      assert [Act(i, Box(false))][1..] == [];
    }
  }

  lemma GivesBack(s: State, i: nat, d: Shared, wake: nat)
    requires i < |s.clients| == |d.sem.takers| && s.clients[i].Idle? && s.owner == NOBODY && MayWake(d.sem, wake)
    ensures Play(Busy(s, i, Refused, d), [Act(i, GiveBack(wake)), Act(i, Unlock)]) == s.(d := Release(d, wake))
  {
    BusyStep(s, i, Refused, d, GiveBack(wake));
    Unlocks(s, i, Release(d, wake));
    hide Do;
    PlayTwo(Busy(s, i, Refused, d), Act(i, GiveBack(wake)), Act(i, Unlock));
  }

  lemma EndsRejected(s: State, i: nat, m: Message, d: Shared, boxed: bool, wake: nat)
    requires i < |s.clients| == |d.sem.takers| && s.clients[i].Idle? && s.owner == NOBODY && MayWake(d.sem, wake)
    requires d.largest < m.seqId
    ensures Play(Busy(s, i, Permitted(m), d), RejectMoves(i, boxed, wake)) == s.(d := Release(Seen(m, d, boxed), wake))
  {
    hide Do, Play, MayWake, Release;
    var first := if boxed then [Act(i, Box(true)), Act(i, HoldFails)] else [Act(i, Box(false))];
    Refuses(s, i, m, d, boxed);
    GivesBack(s, i, Seen(m, d, boxed), wake);
    PlayAppend(Busy(s, i, Permitted(m), d), first, [Act(i, GiveBack(wake)), Act(i, Unlock)]);
  }

  lemma ThreeParts(s: State, a: seq<Move>, b: seq<Move>, c: seq<Move>)
    requires |s.d.sem.takers| == |s.clients|
    ensures Exec(s, a + b + c) == Play(Play(Play(s, a), b), c)
  {
    hide Exec, Do, Play;
    PlayIsExec(s, a + b + c);
    PlayAppend(s, a + b, c);
    PlayAppend(s, a, b);
  }

  /** A whole send: the message goes out complete, under the next sequence ID, the listener is told
      to hold and then to expect it, and the operation is in flight with one permit taken. */
  lemma WholeSend(s: State, i: nat, bytes: seq<int>)
    requires Inv(s) && s.owner == NOBODY && i < |s.clients| && s.d.sem.count > 0 && bytes != []
    ensures var t, q := Exec(s, PrepareMoves(i, bytes) + WriteMoves(i, |bytes|) + ExpectMoves(i)), s.d.sequence;
            && t.clients == s.clients && t.owner == NOBODY && t.d.sequence == q + 1 && t.d.largest == q
            && t.d.wire == s.d.wire + bytes && t.d.done == s.d.done + [Message(q, bytes)] && t.d.torn == s.d.torn
            && t.d.held == s.d.held + {q} && t.d.expected == s.d.expected + [q]
            && t.d.inFlight == s.d.inFlight + {q} && t.d.sem.count == s.d.sem.count - 1
  {
    hide Do, Exec, Play, Inv, Busy, PrepareMoves, WriteMoves, ExpectMoves;
    FreeSession(s, i);
    var m, d := Message(s.d.sequence, bytes), Prepared(s, i);
    Prepares(s, i, bytes);
    Writes(s, i, m, d, |bytes|);
    assert bytes[0..|bytes|] == bytes;
    EndsExpecting(s, i, m, HandleWrite(m, 0, d.(largest := m.seqId, held := d.held + {m.seqId}), |bytes|).d);
    ThreeParts(s, PrepareMoves(i, bytes), WriteMoves(i, |bytes|), ExpectMoves(i));
  }

  /** A send that fails after n bytes, possibly all: those bytes are out, nothing is expected, and the
      operation is in flight all the same, to be completed with its failure. */
  lemma FailedSend(s: State, i: nat, bytes: seq<int>, n: nat)
    requires Inv(s) && s.owner == NOBODY && i < |s.clients| && s.d.sem.count > 0 && bytes != [] && n <= |bytes|
    ensures var t, q := Exec(s, PrepareMoves(i, bytes) + WriteMoves(i, n) + FailMoves(i)), s.d.sequence;
            && t.clients == s.clients && t.owner == NOBODY && t.d.sequence == q + 1
            && t.d.wire == s.d.wire + bytes[..n] && t.d.torn == (s.d.torn || 0 < n < |bytes|)
            && t.d.done == s.d.done + (if n == |bytes| then [Message(q, bytes)] else [])
            && t.d.expected == s.d.expected && t.d.inFlight == s.d.inFlight + {q}
            && t.d.sem.count == s.d.sem.count - 1
  {
    hide Do, Exec, Play, Inv, Busy, PrepareMoves, WriteMoves, FailMoves;
    FreeSession(s, i);
    var m, d := Message(s.d.sequence, bytes), Prepared(s, i);
    Prepares(s, i, bytes);
    Writes(s, i, m, d, n);
    assert bytes[0..n] == bytes[..n] && s.d.done + [] == s.d.done;
    EndsFailing(s, i, m, n, HandleWrite(m, 0, d.(largest := m.seqId, held := d.held + {m.seqId}), n).d);
    ThreeParts(s, PrepareMoves(i, bytes), WriteMoves(i, n), FailMoves(i));
  }

  /** A send that is rejected before its first byte: no byte is out, nothing is in flight, and the
      permit is back. */
  lemma RejectedSend(s: State, i: nat, bytes: seq<int>, boxed: bool, wake: nat)
    requires Inv(s) && s.owner == NOBODY && i < |s.clients| && s.d.sem.count > 0 && bytes != []
    requires MayWake(Enter(s.d.sem, i), wake)
    ensures var t := Exec(s, PrepareMoves(i, bytes) + RejectMoves(i, boxed, wake));
            && t.clients == s.clients && t.owner == NOBODY && t.d.sequence == s.d.sequence + 1
            && t.d.wire == s.d.wire && t.d.done == s.d.done && t.d.expected == s.d.expected
            && t.d.inFlight == s.d.inFlight && t.d.sem.count == s.d.sem.count
  {
    hide Do, Exec, Play, Inv, Busy, PrepareMoves, RejectMoves;
    FreeSession(s, i);
    var m, d := Message(s.d.sequence, bytes), Prepared(s, i);
    Prepares(s, i, bytes);
    EndsRejected(s, i, m, d, boxed, wake);
    PlayIsExec(s, PrepareMoves(i, bytes) + RejectMoves(i, boxed, wake));
    PlayAppend(s, PrepareMoves(i, bytes), RejectMoves(i, boxed, wake));
  }

  /** A message that cannot be packed uses up its sequence ID and nothing else. */
  lemma UnpackedSend(s: State, i: nat)
    requires Inv(s) && s.owner == NOBODY && i < |s.clients|
    ensures Exec(s, [Lock(i), Act(i, PackFails), Act(i, Unlock)]) == s.(d := s.d.(sequence := s.d.sequence + 1))
  {
    FreeSession(s, i);
    hide Inv;
    assert Do(s, Lock(i)) == Busy(s, i, Locked, s.d);
    BusyStep(s, i, Locked, s.d, PackFails);
    Unlocks(s, i, s.d.(sequence := s.d.sequence + 1));
    hide Do;
    PlayThree(s, Lock(i), Act(i, PackFails), Act(i, Unlock));
    PlayIsExec(s, [Lock(i), Act(i, PackFails), Act(i, Unlock)]);
  }
}
