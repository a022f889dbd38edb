/** The threadpool's lock-free task ring (src/lib/threadpool/threadpool.c), as a
    transition system over any number of producers and workers.

    Every shared read, every word written or copied, every mark write and every
    compare-and-swap is one atomic step of one thread; a run is an arbitrary
    schedule of thread steps. Counters are unbounded.  */
module ThreadpoolRing {

  /** A task is the three words `task`, `cleanup`, `udata`, written and read one by one. */
  type Task = t: seq<int> | |t| == 3 witness [0, 0, 0]

  /** `mark == n` or `mark == ~n`. */
  datatype Mark = Committed(n: nat) | Released(n: nat)

  datatype Slot = Slot(words: Task, mark: Mark)

  /** Program counter and locals of a thread inside Threadpool_Schedule. */
  datatype Producer =
    | Outside
    | ReadReserve(task: Task)
    | ReadRelease(task: Task, wh: nat)
    | Reserve(task: Task, wh: nat, rh: nat)
    | Fill(task: Task, n: nat, k: nat)
    | MarkCommitted(n: nat)
    | CommitRead
    | CommitCheck(ch: nat)
    | CommitCas(ch: nat)

  /** Program counter and locals of a thread inside thread_task. */
  datatype Worker =
    | Waiting
    | ReadCommit
    | ReadRequest(ch: nat)
    | Claim(ch: nat, rh: nat)
    | Copy(n: nat, got: seq<int>)
    | MarkReleased(n: nat, got: seq<int>)
    | ReleaseRead(n: nat, got: seq<int>)
    | ReleaseCheck(n: nat, got: seq<int>, relh: nat)
    | ReleaseCas(n: nat, got: seq<int>, relh: nat)
    | Run(n: nat, got: seq<int>)

  /** One finished task: the index it was claimed at and the words the worker ran. */
  datatype Ran = Ran(n: nat, words: seq<int>)

  /** The shared ring, the threads, and the history of the run: `tasks[n]` is the task of
      the producer `reservedBy[n]` that reserved index n, `claimedBy[n]` the worker that
      claimed n, `ran` what workers have executed. */
  datatype State = State(
    size: nat,
    reserve: nat, commit: nat, request: nat, release: nat,
    slots: seq<Slot>,
    producers: seq<Producer>, workers: seq<Worker>,
    tasks: seq<Task>, reservedBy: seq<nat>, claimedBy: seq<nat>, ran: seq<Ran>)

  /** Who moves next. `task` is used only by a producer entering Threadpool_Schedule. */
  datatype Actor = ByProducer(p: nat, task: Task) | ByWorker(w: nat)

  /** Threadpool_Init: `memset 0xFF` leaves every mark, also the one of slot 0, at `~0`. */
  function Init(size: nat, producers: nat, workers: nat): State
    requires size >= 2
  {
    State(size, 0, 0, 0, 0,
          seq(size, _ => Slot([-1, -1, -1], Released(0))),
          seq(producers, _ => Outside), seq(workers, _ => Waiting),
          [], [], [], [])
  }

  predicate Shaped(s: State) {
    s.size >= 2 && |s.slots| == s.size
  }

  function At(s: State, n: nat): Slot
    requires Shaped(s)
  {
    s.slots[n % s.size]
  }

  function SetP(s: State, p: nat, pc: Producer): State
    requires p < |s.producers|
  {
    s.(producers := s.producers[p := pc])
  }

  function SetW(s: State, w: nat, pc: Worker): State
    requires w < |s.workers|
  {
    s.(workers := s.workers[w := pc])
  }

  /** `wh - rh >= queue_size - 1` in unsigned arithmetic: a stale `wh` below `rh` wraps
      around and also reads as full. */
  predicate Full(s: State, wh: nat, rh: nat) {
    wh < rh || wh - rh >= s.size - 2
  }

  function ProducerStep(s: State, p: nat, task: Task): State
    requires Shaped(s) && p < |s.producers|
  {
    match s.producers[p]
    case Outside => SetP(s, p, ReadReserve(task))
    case ReadReserve(t) => SetP(s, p, ReadRelease(t, s.reserve))
    case ReadRelease(t, wh) =>
      if Full(s, wh, s.release) then SetP(s, p, Outside) else SetP(s, p, Reserve(t, wh, s.release))
    case Reserve(t, wh, rh) =>
      if s.reserve == wh then
        SetP(s, p, Fill(t, wh, 0)).(reserve := wh + 1, tasks := s.tasks + [t], reservedBy := s.reservedBy + [p])
      else SetP(s, p, ReadReserve(t))
    case Fill(t, n, k) =>
      if k < 3 then
        var slot := At(s, n);
        SetP(s, p, Fill(t, n, k + 1)).(slots := s.slots[n % s.size := slot.(words := slot.words[k := t[k]])])
      else SetP(s, p, MarkCommitted(n))
    case MarkCommitted(n) =>
      SetP(s, p, CommitRead).(slots := s.slots[n % s.size := At(s, n).(mark := Committed(n))])
    case CommitRead => SetP(s, p, CommitCheck(s.commit))
    case CommitCheck(ch) =>
      if At(s, ch).mark == Committed(ch) then SetP(s, p, CommitCas(ch)) else SetP(s, p, Outside)
    case CommitCas(ch) =>
      if s.commit == ch then SetP(s, p, CommitRead).(commit := ch + 1) else SetP(s, p, CommitRead)
  }

  function WorkerStep(s: State, w: nat): State
    requires Shaped(s) && w < |s.workers|
  {
    match s.workers[w]
    case Waiting => SetW(s, w, ReadCommit)
    case ReadCommit => SetW(s, w, ReadRequest(s.commit))
    case ReadRequest(ch) =>
      // `rh > ch - 1`, unsigned: for ch == 0 the right side is SIZE_MAX and the test never holds
      if ch > 0 && s.request >= ch then SetW(s, w, Waiting) else SetW(s, w, Claim(ch, s.request))
    case Claim(ch, rh) =>
      if s.request == rh then
        SetW(s, w, Copy(rh, [])).(request := rh + 1, claimedBy := s.claimedBy + [w])
      else SetW(s, w, ReadCommit)
    case Copy(n, got) =>
      if |got| < 3 then SetW(s, w, Copy(n, got + [At(s, n).words[|got|]])) else SetW(s, w, MarkReleased(n, got))
    case MarkReleased(n, got) =>
      SetW(s, w, ReleaseRead(n, got)).(slots := s.slots[n % s.size := At(s, n).(mark := Released(n))])
    case ReleaseRead(n, got) => SetW(s, w, ReleaseCheck(n, got, s.release))
    case ReleaseCheck(n, got, relh) =>
      if At(s, relh).mark == Released(relh) then SetW(s, w, ReleaseCas(n, got, relh)) else SetW(s, w, Run(n, got))
    case ReleaseCas(n, got, relh) =>
      if s.release == relh then SetW(s, w, ReleaseRead(n, got)).(release := relh + 1)
      else SetW(s, w, ReleaseRead(n, got))
    case Run(n, got) => SetW(s, w, Waiting).(ran := s.ran + [Ran(n, got)])
  }

  /** One atomic step; naming a thread that does not exist changes nothing. */
  function Step(s: State, a: Actor): State
    requires Shaped(s)
  {
    match a
    case ByProducer(p, task) => if p < |s.producers| then ProducerStep(s, p, task) else s
    case ByWorker(w) => if w < |s.workers| then WorkerStep(s, w) else s
  }

  /** The state after a schedule. */
  function Exec(s: State, schedule: seq<Actor>): (r: State)
    requires Shaped(s)
    ensures Shaped(r)
  {
    if schedule == [] then s
    else Step(Exec(s, schedule[..|schedule| - 1]), schedule[|schedule| - 1])
  }

  // ---------------------------------------------------------------------------
  // The invariant

  /** The heads stay ordered and the window of live indices fits the ring. */
  predicate Ordered(s: State) {
    && s.release <= s.request <= s.commit <= s.reserve
    && s.reserve - s.release <= s.size - 2
  }

  predicate Histories(s: State) {
    |s.tasks| == |s.reservedBy| == s.reserve && |s.claimedBy| == s.request
  }

  /** A mark never names an index from the future; `~0` in slot 0 is the one exception. */
  ghost predicate MarksPast(s: State)
    requires Shaped(s)
  {
    forall i | 0 <= i < s.size ::
      match s.slots[i].mark
      case Committed(m) => m < s.reserve && m % s.size == i
      case Released(m) => m < s.request || m == 0
  }

  /** Index n is still being written by the producer that reserved it. */
  predicate Writing(s: State, n: nat)
    requires n < |s.reservedBy|
  {
    var p := s.reservedBy[n];
    p < |s.producers| &&
    match s.producers[p]
    case Fill(_, m, _) => m == n
    case MarkCommitted(m) => m == n
    case _ => false
  }

  /** Index n is still being read by the worker that claimed it. */
  predicate Reading(s: State, n: nat)
    requires n < |s.claimedBy|
  {
    var w := s.claimedBy[n];
    w < |s.workers| &&
    match s.workers[w]
    case Copy(m, _) => m == n
    case MarkReleased(m, _) => m == n
    case _ => false
  }

  predicate Published(s: State, n: nat)
    requires Shaped(s) && n < |s.tasks|
  {
    At(s, n) == Slot(s.tasks[n], Committed(n))
  }

  /** What the slot of a live index holds, by where the index lies between the heads. */
  predicate IndexOk(s: State, n: nat)
    requires Shaped(s) && Histories(s) && s.release <= n < s.reserve
  {
    if n < s.request then (Published(s, n) && Reading(s, n)) || At(s, n).mark == Released(n)
    else if n < s.commit then Published(s, n)
    else Published(s, n) || Writing(s, n)
  }

  ghost predicate WindowOk(s: State)
    requires Shaped(s) && Histories(s)
  {
    forall n | s.release <= n < s.reserve :: IndexOk(s, n)
  }

  predicate ProducerOk(s: State, p: nat)
    requires Shaped(s) && Histories(s) && p < |s.producers|
  {
    match s.producers[p]
    case ReadRelease(_, wh) => wh <= s.reserve
    case Reserve(_, wh, rh) => wh <= s.reserve && rh <= s.release && !Full(s, wh, rh)
    case Fill(t, n, k) =>
      && s.commit <= n < s.reserve && s.reservedBy[n] == p && s.tasks[n] == t && At(s, n).mark != Committed(n)
      && k <= 3 && At(s, n).words[..k] == t[..k]
    case MarkCommitted(n) =>
      s.commit <= n < s.reserve && s.reservedBy[n] == p && At(s, n).words == s.tasks[n] && At(s, n).mark != Committed(n)
    case CommitCheck(ch) => ch <= s.commit
    case CommitCas(ch) => ch <= s.commit && (ch == s.commit ==> At(s, ch).mark == Committed(ch))
    case _ => true
  }

  function ClaimOf(pc: Worker): int {
    match pc
    case Copy(n, _) => n
    case MarkReleased(n, _) => n
    case ReleaseRead(n, _) => n
    case ReleaseCheck(n, _, _) => n
    case ReleaseCas(n, _, _) => n
    case Run(n, _) => n
    case _ => -1
  }

  ghost predicate ClaimOk(s: State, w: nat, n: nat)
    requires Histories(s)
  {
    n < s.request <= s.reserve && s.claimedBy[n] == w && forall i | 0 <= i < |s.ran| :: s.ran[i].n != n
  }

  ghost predicate WorkerOk(s: State, w: nat)
    requires Shaped(s) && Histories(s) && w < |s.workers|
  {
    var pc := s.workers[w];
    && (ClaimOf(pc) >= 0 ==> ClaimOk(s, w, ClaimOf(pc)))
    && match pc
       case ReadRequest(ch) => ch <= s.commit
       case Claim(ch, rh) => ch <= s.commit && (ch > 0 ==> rh < ch)
       case Copy(n, got) =>
         s.release <= n && |got| <= 3 && got == s.tasks[n][..|got|] && Published(s, n)
       case MarkReleased(n, got) => s.release <= n && got == s.tasks[n] && Published(s, n)
       case ReleaseRead(n, got) => got == s.tasks[n]
       case ReleaseCheck(n, got, relh) => got == s.tasks[n] && relh <= s.release
       case ReleaseCas(n, got, relh) =>
         got == s.tasks[n] && relh <= s.release && relh < s.request
         && (relh == s.release ==> At(s, relh).mark == Released(relh))
       case Run(n, got) => got == s.tasks[n]
       case _ => true
  }

  ghost predicate ProducersOk(s: State)
    requires Shaped(s) && Histories(s)
  {
    forall p | 0 <= p < |s.producers| :: ProducerOk(s, p)
  }

  ghost predicate WorkersOk(s: State)
    requires Shaped(s) && Histories(s)
  {
    forall w | 0 <= w < |s.workers| :: WorkerOk(s, w)
  }

  /** Whatever has been executed is the task its producer reserved the index with, once. */
  ghost predicate RanOk(s: State)
    requires Histories(s)
  {
    && (forall i | 0 <= i < |s.ran| :: s.ran[i].n < s.request <= s.reserve && s.ran[i].words == s.tasks[s.ran[i].n])
    && (forall i, j | 0 <= i < j < |s.ran| :: s.ran[i].n != s.ran[j].n)
  }

  predicate CommitsHead(pc: Producer, head: nat) {
    pc.CommitRead? || pc == CommitCheck(head) || pc == CommitCas(head)
  }

  predicate ReleasesHead(pc: Worker, head: nat) {
    pc.ReleaseRead? || (pc.ReleaseCheck? && pc.relh == head) || (pc.ReleaseCas? && pc.relh == head)
  }

  /** A marked head always has a thread on its way to advance it. */
  ghost predicate CommitHelped(s: State)
    requires Shaped(s)
  {
    s.commit < s.reserve && At(s, s.commit).mark == Committed(s.commit) ==>
      exists p | 0 <= p < |s.producers| :: CommitsHead(s.producers[p], s.commit)
  }

  ghost predicate ReleaseHelped(s: State)
    requires Shaped(s)
  {
    s.release < s.request && At(s, s.release).mark == Released(s.release) ==>
      exists w | 0 <= w < |s.workers| :: ReleasesHead(s.workers[w], s.release)
  }

  ghost predicate Inv(s: State) {
    && Shaped(s) && Ordered(s) && Histories(s) && MarksPast(s) && WindowOk(s)
    && ProducersOk(s) && WorkersOk(s) && RanOk(s) && CommitHelped(s) && ReleaseHelped(s)
  }

  /** The one step that breaks the ring: a worker that read the commit head as 0 passed the
      unsigned test on line 325, and its CAS succeeds although every committed index has
      already been requested. */
  predicate Premature(s: State, a: Actor) {
    a.ByWorker? && a.w < |s.workers| && s.workers[a.w].Claim? && s.workers[a.w].ch == 0
    && s.workers[a.w].rh == s.request && s.commit == s.request
  }

  // ---------------------------------------------------------------------------
  // Preservation

  lemma MulBound(size: nat, e: int)
    ensures e >= 1 ==> size * e >= size
    ensures e <= -1 ==> size * e <= 0 - size
  {
  }

  lemma ModUnique(b: nat, q: int, r: nat, size: nat)
    requires r < size && b == size * q + r
    ensures b % size == r
  {
    var e := b / size - q;
    assert b == size * (b / size) + b % size;
    assert size * e == size * (b / size) - size * q;
    MulBound(size, e);
  }

  lemma ModDistinct(a: nat, b: nat, size: nat)
    requires size > 0 && a < b < a + size
    ensures a % size != b % size
  {
    var q, r := a / size, a % size;
    var d := b - a;
    assert a == size * q + r;
    if r + d < size {
      ModUnique(b, q, r + d, size);
    } else {
      assert size * (q + 1) == size * q + size;
      ModUnique(b, q + 1, r + d - size, size);
    }
  }

  /** Two live indices never share a slot. */
  lemma {:induction false} WindowDistinct(s: State, n: nat)
    requires Shaped(s) && Ordered(s) && s.release <= n <= s.reserve
    ensures forall m | s.release <= m <= s.reserve && m != n :: m % s.size != n % s.size
  {
    forall m | s.release <= m <= s.reserve && m != n
      ensures m % s.size != n % s.size
    {
      if m < n { ModDistinct(m, n, s.size); } else { ModDistinct(n, m, s.size); }
    }
  }

  lemma InitInv(size: nat, producers: nat, workers: nat)
    requires size >= 2
    ensures Inv(Init(size, producers, workers))
  {
  }

  predicate ProducerLocal(s: State, p: nat)
    requires p < |s.producers|
  {
    match s.producers[p]
    case Reserve(_, wh, _) => s.reserve != wh
    case Fill(_, _, k) => k >= 3
    case MarkCommitted(_) => false
    case CommitCas(ch) => s.commit != ch
    case _ => true
  }

  /** The index a producer is writing, or -1. */
  function WriteIndex(pc: Producer): int {
    match pc
    case Fill(_, n, _) => n
    case MarkCommitted(n) => n
    case _ => -1
  }

  /** A step that moves only one producer's program counter. */
  lemma MoveProducer(s: State, p: nat, pc: Producer)
    requires Inv(s) && p < |s.producers|
    requires ProducerOk(SetP(s, p, pc), p)
    requires WriteIndex(pc) == WriteIndex(s.producers[p])
    requires At(s, s.commit).mark == Committed(s.commit) && CommitsHead(s.producers[p], s.commit) ==>
               CommitsHead(pc, s.commit)
    ensures Inv(SetP(s, p, pc))
  {
    var s' := SetP(s, p, pc);
    forall n | s'.release <= n < s'.reserve ensures IndexOk(s', n) { assert IndexOk(s, n); }
    forall w | 0 <= w < |s'.workers| ensures WorkerOk(s', w) { assert WorkerOk(s, w); }
    forall q | 0 <= q < |s'.producers| ensures ProducerOk(s', q) { assert ProducerOk(s, q); }
    if s.commit < s.reserve && At(s, s.commit).mark == Committed(s.commit) {
      var q :| 0 <= q < |s.producers| && CommitsHead(s.producers[q], s.commit);
      assert CommitsHead(s'.producers[q], s'.commit);
    }
  }

  lemma ProducerLocalShape(s: State, p: nat, task: Task)
    requires Shaped(s) && p < |s.producers| && ProducerLocal(s, p)
    ensures ProducerStep(s, p, task) == SetP(s, p, ProducerStep(s, p, task).producers[p])
  {
  }

  lemma ProducerLocalOk(s: State, p: nat, task: Task)
    requires Inv(s) && p < |s.producers| && ProducerLocal(s, p)
    ensures var pc := ProducerStep(s, p, task).producers[p];
            && ProducerOk(SetP(s, p, pc), p) && WriteIndex(pc) == WriteIndex(s.producers[p])
            && (At(s, s.commit).mark == Committed(s.commit) && CommitsHead(s.producers[p], s.commit) ==>
                  CommitsHead(pc, s.commit))
  {
    hide WindowOk, WorkersOk, RanOk, CommitHelped, ReleaseHelped;
    assert ProducerOk(s, p);
  }

  lemma ProducerLocalStep(s: State, p: nat, task: Task)
    requires Inv(s) && p < |s.producers| && ProducerLocal(s, p)
    ensures Inv(ProducerStep(s, p, task))
  {
    ProducerLocalShape(s, p, task);
    ProducerLocalOk(s, p, task);
    MoveProducer(s, p, ProducerStep(s, p, task).producers[p]);
  }

  lemma ReserveStep(s: State, p: nat, task: Task)
    requires Inv(s) && p < |s.producers| && s.producers[p].Reserve? && s.producers[p].wh == s.reserve
    ensures Inv(ProducerStep(s, p, task))
  {
    var s' := ProducerStep(s, p, task);
    var t := s.producers[p].task;
    assert ProducerOk(s, p);
    forall n | s'.release <= n < s'.reserve ensures IndexOk(s', n) {
      if n < s.reserve { assert IndexOk(s, n); } else { assert Writing(s', n); }
    }
    forall w | 0 <= w < |s'.workers| ensures WorkerOk(s', w) { assert WorkerOk(s, w); }
    forall q | 0 <= q < |s'.producers| ensures ProducerOk(s', q) { assert ProducerOk(s, q); }
    if s'.commit < s'.reserve && At(s', s'.commit).mark == Committed(s'.commit) {
      var q :| 0 <= q < |s.producers| && CommitsHead(s.producers[q], s.commit);
      assert CommitsHead(s'.producers[q], s'.commit);
    }
  }

  /** The slot of another live index, and every mark, survive a word being written. */
  lemma FillFrame(s: State, p: nat, task: Task)
    requires Inv(s) && p < |s.producers| && s.producers[p].Fill? && s.producers[p].k < 3
    ensures var s', n := ProducerStep(s, p, task), s.producers[p].n;
            && Shaped(s') && s.release <= n < s.reserve
            && (forall m | s.release <= m <= s.reserve && m != n :: At(s', m) == At(s, m))
            && (forall i | 0 <= i < s.size :: s'.slots[i].mark == s.slots[i].mark)
  {
    assert ProducerOk(s, p);
    WindowDistinct(s, s.producers[p].n);
  }

  lemma FillWindow(s: State, p: nat, task: Task)
    requires Inv(s) && p < |s.producers| && s.producers[p].Fill? && s.producers[p].k < 3
    ensures WindowOk(ProducerStep(s, p, task))
  {
    var s' := ProducerStep(s, p, task);
    FillFrame(s, p, task);
    assert ProducerOk(s, p);
    forall m | s'.release <= m < s'.reserve ensures IndexOk(s', m) { assert IndexOk(s, m); }
  }

  lemma FillProducers(s: State, p: nat, task: Task)
    requires Inv(s) && p < |s.producers| && s.producers[p].Fill? && s.producers[p].k < 3
    ensures ProducersOk(ProducerStep(s, p, task))
  {
    var s' := ProducerStep(s, p, task);
    FillFrame(s, p, task);
    assert ProducerOk(s, p);
    hide WindowOk, WorkersOk, RanOk, CommitHelped, ReleaseHelped, MarksPast;
    forall q | 0 <= q < |s'.producers| ensures ProducerOk(s', q) {
      assert ProducerOk(s, q);
      if q != p && WriteIndex(s.producers[q]) >= 0 { assert WriteIndex(s.producers[q]) != s.producers[p].n; }
    }
  }

  lemma FillWorkers(s: State, p: nat, task: Task)
    requires Inv(s) && p < |s.producers| && s.producers[p].Fill? && s.producers[p].k < 3
    ensures WorkersOk(ProducerStep(s, p, task))
  {
    var s' := ProducerStep(s, p, task);
    FillFrame(s, p, task);
    assert ProducerOk(s, p);
    forall w | 0 <= w < |s'.workers| ensures WorkerOk(s', w) { assert WorkerOk(s, w); }
  }

  lemma FillStep(s: State, p: nat, task: Task)
    requires Inv(s) && p < |s.producers| && s.producers[p].Fill? && s.producers[p].k < 3
    ensures Inv(ProducerStep(s, p, task))
  {
    var s' := ProducerStep(s, p, task);
    FillFrame(s, p, task);
    FillWindow(s, p, task);
    FillProducers(s, p, task);
    FillWorkers(s, p, task);
    hide WindowOk, ProducersOk, WorkersOk;
    if s.commit < s.reserve && At(s, s.commit).mark == Committed(s.commit) {
      var q :| 0 <= q < |s.producers| && CommitsHead(s.producers[q], s.commit);
      assert CommitsHead(s'.producers[q], s'.commit);
    }
  }

  lemma MarkCommittedProducers(s: State, p: nat, task: Task)
    requires Inv(s) && p < |s.producers| && s.producers[p].MarkCommitted?
    ensures ProducersOk(ProducerStep(s, p, task))
  {
    var s' := ProducerStep(s, p, task);
    assert ProducerOk(s, p);
    WindowDistinct(s, s.producers[p].n);
    hide WindowOk, WorkersOk, RanOk, CommitHelped, ReleaseHelped;
    forall q | 0 <= q < |s'.producers| ensures ProducerOk(s', q) { assert ProducerOk(s, q); }
  }

  lemma MarkCommittedStep(s: State, p: nat, task: Task)
    requires Inv(s) && p < |s.producers| && s.producers[p].MarkCommitted?
    ensures Inv(ProducerStep(s, p, task))
  {
    var s' := ProducerStep(s, p, task);
    var n := s.producers[p].n;
    MarkCommittedProducers(s, p, task);
    assert ProducerOk(s, p);
    hide ProducersOk;
    WindowDistinct(s, n);
    forall m | s'.release <= m < s'.reserve ensures IndexOk(s', m) { assert IndexOk(s, m); }
    forall w | 0 <= w < |s'.workers| ensures WorkerOk(s', w) { assert WorkerOk(s, w); }
    assert CommitsHead(s'.producers[p], s'.commit);
  }

  /** A live index whose slot carries its commit mark is completely written. */
  lemma CommittedIsPublished(s: State, n: nat)
    requires Inv(s) && n >= s.release && At(s, n).mark == Committed(n)
    ensures n < s.reserve && Published(s, n)
  {
    assert IndexOk(s, n);
    var p := s.reservedBy[n];
    if p < |s.producers| { assert ProducerOk(s, p); }
  }

  lemma CommitStep(s: State, p: nat, task: Task)
    requires Inv(s) && p < |s.producers| && s.producers[p] == CommitCas(s.commit)
    ensures Inv(ProducerStep(s, p, task))
  {
    var s' := ProducerStep(s, p, task);
    assert ProducerOk(s, p);
    CommittedIsPublished(s, s.commit);
    forall m | s'.release <= m < s'.reserve ensures IndexOk(s', m) { assert IndexOk(s, m); }
    forall w | 0 <= w < |s'.workers| ensures WorkerOk(s', w) { assert WorkerOk(s, w); }
    forall q | 0 <= q < |s'.producers| ensures ProducerOk(s', q) { assert ProducerOk(s, q); }
    assert CommitsHead(s'.producers[p], s'.commit);
  }

  predicate WorkerLocal(s: State, w: nat)
    requires w < |s.workers|
  {
    match s.workers[w]
    case Claim(_, rh) => s.request != rh
    case MarkReleased(_, _) => false
    case ReleaseCas(_, _, relh) => s.release != relh
    case Run(_, _) => false
    case _ => true
  }

  /** The index a worker is reading, or -1. */
  function ReadIndex(pc: Worker): int {
    match pc
    case Copy(n, _) => n
    case MarkReleased(n, _) => n
    case _ => -1
  }

  /** A step that moves only one worker's program counter. */
  lemma MoveWorker(s: State, w: nat, pc: Worker)
    requires Inv(s) && w < |s.workers|
    requires WorkerOk(SetW(s, w, pc), w)
    requires ReadIndex(pc) == ReadIndex(s.workers[w])
    requires At(s, s.release).mark == Released(s.release) && ReleasesHead(s.workers[w], s.release) ==>
               ReleasesHead(pc, s.release)
    ensures Inv(SetW(s, w, pc))
  {
    var s' := SetW(s, w, pc);
    forall n | s'.release <= n < s'.reserve ensures IndexOk(s', n) { assert IndexOk(s, n); }
    forall v | 0 <= v < |s'.workers| ensures WorkerOk(s', v) { assert WorkerOk(s, v); }
    forall q | 0 <= q < |s'.producers| ensures ProducerOk(s', q) { assert ProducerOk(s, q); }
    if s.release < s.request && At(s, s.release).mark == Released(s.release) {
      var v :| 0 <= v < |s.workers| && ReleasesHead(s.workers[v], s.release);
      assert ReleasesHead(s'.workers[v], s'.release);
    }
  }

  lemma WorkerLocalShape(s: State, w: nat)
    requires Shaped(s) && w < |s.workers| && WorkerLocal(s, w)
    ensures WorkerStep(s, w) == SetW(s, w, WorkerStep(s, w).workers[w])
  {
  }

  lemma WorkerLocalOk(s: State, w: nat)
    requires Inv(s) && w < |s.workers| && WorkerLocal(s, w)
    ensures var pc := WorkerStep(s, w).workers[w];
            && WorkerOk(SetW(s, w, pc), w) && ReadIndex(pc) == ReadIndex(s.workers[w])
            && (At(s, s.release).mark == Released(s.release) && ReleasesHead(s.workers[w], s.release) ==>
                  ReleasesHead(pc, s.release))
  {
    hide ProducersOk, RanOk, CommitHelped, ReleaseHelped;
    assert WorkerOk(s, w);
  }

  lemma WorkerLocalStep(s: State, w: nat)
    requires Inv(s) && w < |s.workers| && WorkerLocal(s, w)
    ensures Inv(WorkerStep(s, w))
  {
    WorkerLocalShape(s, w);
    WorkerLocalOk(s, w);
    MoveWorker(s, w, WorkerStep(s, w).workers[w]);
  }

  /** A claim that is not premature gets a published index. */
  lemma ClaimWorkers(s: State, w: nat)
    requires Inv(s) && w < |s.workers| && s.workers[w].Claim? && s.workers[w].rh == s.request
    requires !Premature(s, ByWorker(w))
    ensures s.request < s.commit && Published(s, s.request)
    ensures WorkersOk(WorkerStep(s, w))
  {
    hide ProducersOk, MarksPast, CommitHelped, ReleaseHelped;
    var s' := WorkerStep(s, w);
    assert WorkerOk(s, w);
    assert IndexOk(s, s.request);
    forall v | 0 <= v < |s'.workers| ensures WorkerOk(s', v) { assert WorkerOk(s, v); }
  }

  lemma ClaimStep(s: State, w: nat)
    requires Inv(s) && w < |s.workers| && s.workers[w].Claim? && s.workers[w].rh == s.request
    requires !Premature(s, ByWorker(w))
    ensures Inv(WorkerStep(s, w))
  {
    var s' := WorkerStep(s, w);
    ClaimWorkers(s, w);
    hide WorkersOk;
    assert Reading(s', s.request) && Published(s', s.request);
    forall n | s'.release <= n < s'.reserve ensures IndexOk(s', n) { assert IndexOk(s, n); }
    forall q | 0 <= q < |s'.producers| ensures ProducerOk(s', q) { assert ProducerOk(s, q); }
    if s'.release < s'.request && At(s', s'.release).mark == Released(s'.release) {
      assert IndexOk(s, s.release);
      var v :| 0 <= v < |s.workers| && ReleasesHead(s.workers[v], s.release);
      assert ReleasesHead(s'.workers[v], s'.release);
    }
  }

  lemma MarkReleasedWorkers(s: State, w: nat)
    requires Inv(s) && w < |s.workers| && s.workers[w].MarkReleased?
    ensures WorkersOk(WorkerStep(s, w))
  {
    hide ProducersOk, MarksPast, CommitHelped, ReleaseHelped;
    var s' := WorkerStep(s, w);
    assert WorkerOk(s, w);
    WindowDistinct(s, s.workers[w].n);
    forall v | 0 <= v < |s'.workers| ensures WorkerOk(s', v) { assert WorkerOk(s, v); }
  }

  lemma MarkReleasedStep(s: State, w: nat)
    requires Inv(s) && w < |s.workers| && s.workers[w].MarkReleased?
    ensures Inv(WorkerStep(s, w))
  {
    var s' := WorkerStep(s, w);
    var n := s.workers[w].n;
    MarkReleasedWorkers(s, w);
    assert WorkerOk(s, w);
    hide WorkersOk;
    WindowDistinct(s, n);
    assert IndexOk(s, n);
    forall m | s'.release <= m < s'.reserve ensures IndexOk(s', m) { assert IndexOk(s, m); }
    forall q | 0 <= q < |s'.producers| ensures ProducerOk(s', q) { assert ProducerOk(s, q); }
    assert ReleasesHead(s'.workers[w], s'.release);
  }

  lemma ReleaseStep(s: State, w: nat)
    requires Inv(s) && w < |s.workers| && s.workers[w].ReleaseCas? && s.workers[w].relh == s.release
    ensures Inv(WorkerStep(s, w))
  {
    var s' := WorkerStep(s, w);
    assert WorkerOk(s, w);
    assert IndexOk(s, s.release);
    forall m | s'.release <= m < s'.reserve ensures IndexOk(s', m) { assert IndexOk(s, m); }
    forall v | 0 <= v < |s'.workers| ensures WorkerOk(s', v) { assert WorkerOk(s, v); }
    forall q | 0 <= q < |s'.producers| ensures ProducerOk(s', q) { assert ProducerOk(s, q); }
    assert ReleasesHead(s'.workers[w], s'.release);
  }

  lemma RunStep(s: State, w: nat)
    requires Inv(s) && w < |s.workers| && s.workers[w].Run?
    ensures Inv(WorkerStep(s, w))
  {
    var s' := WorkerStep(s, w);
    assert WorkerOk(s, w);
    forall n | s'.release <= n < s'.reserve ensures IndexOk(s', n) { assert IndexOk(s, n); }
    forall v | 0 <= v < |s'.workers| ensures WorkerOk(s', v) { assert WorkerOk(s, v); }
    forall q | 0 <= q < |s'.producers| ensures ProducerOk(s', q) { assert ProducerOk(s, q); }
    if s.release < s.request && At(s, s.release).mark == Released(s.release) {
      var v :| 0 <= v < |s.workers| && ReleasesHead(s.workers[v], s.release);
      assert ReleasesHead(s'.workers[v], s'.release);
    }
  }

  /** Every step of every thread keeps the invariant, unless it is a premature claim. */
  lemma StepKeepsInv(s: State, a: Actor)
    requires Inv(s) && !Premature(s, a)
    ensures Inv(Step(s, a))
  {
    match a
    case ByProducer(p, task) =>
      if p < |s.producers| {
        if ProducerLocal(s, p) { ProducerLocalStep(s, p, task); }
        else {
          match s.producers[p]
          case Reserve(_, _, _) => ReserveStep(s, p, task);
          case Fill(_, _, _) => FillStep(s, p, task);
          case MarkCommitted(_) => MarkCommittedStep(s, p, task);
          case CommitCas(_) => CommitStep(s, p, task);
        }
      }
    case ByWorker(w) =>
      if w < |s.workers| {
        if WorkerLocal(s, w) { WorkerLocalStep(s, w); }
        else {
          match s.workers[w]
          case Claim(_, _) => ClaimStep(s, w);
          case MarkReleased(_, _) => MarkReleasedStep(s, w);
          case ReleaseCas(_, _, _) => ReleaseStep(s, w);
          case Run(_, _) => RunStep(s, w);
        }
      }
  }

  // ---------------------------------------------------------------------------
  // Whole runs

  /** The state after the first i steps of a schedule. */
  function After(s: State, schedule: seq<Actor>, i: nat): (r: State)
    requires Shaped(s) && i <= |schedule|
    ensures Shaped(r)
  {
    Exec(s, schedule[..i])
  }

  lemma AfterStep(s: State, schedule: seq<Actor>, i: nat)
    requires Shaped(s) && i < |schedule|
    ensures After(s, schedule, i + 1) == Step(After(s, schedule, i), schedule[i])
  {
    assert schedule[..i + 1][..i] == schedule[..i];
  }

  ghost predicate NeverPremature(s: State, schedule: seq<Actor>)
    requires Shaped(s)
  {
    forall i | 0 <= i < |schedule| :: !Premature(After(s, schedule, i), schedule[i])
  }

  ghost predicate OrderedThroughout(s: State, schedule: seq<Actor>)
    requires Shaped(s)
  {
    forall i | 0 <= i <= |schedule| :: Ordered(After(s, schedule, i))
  }

  lemma {:induction false} InvAfter(s: State, schedule: seq<Actor>, i: nat)
    requires Inv(s) && NeverPremature(s, schedule) && i <= |schedule|
    ensures Inv(After(s, schedule, i))
  {
    if i > 0 {
      InvAfter(s, schedule, i - 1);
      AfterStep(s, schedule, i - 1);
      StepKeepsInv(After(s, schedule, i - 1), schedule[i - 1]);
    }
  }

  /** In every run of any number of threads the heads stay ordered and the window fits the
      ring at every step, exactly when no worker makes a premature claim. */
  lemma {:induction false} HeadsOrderedIff(size: nat, producers: nat, workers: nat, schedule: seq<Actor>)
    requires size >= 2
    ensures var s := Init(size, producers, workers);
            OrderedThroughout(s, schedule) <==> NeverPremature(s, schedule)
  {
    var s := Init(size, producers, workers);
    InitInv(size, producers, workers);
    if NeverPremature(s, schedule) {
      forall i | 0 <= i <= |schedule| ensures Ordered(After(s, schedule, i)) { InvAfter(s, schedule, i); }
    } else {
      var i :| 0 <= i < |schedule| && Premature(After(s, schedule, i), schedule[i]);
      AfterStep(s, schedule, i);
      assert !Ordered(After(s, schedule, i + 1));
    }
  }

  /** No worker reads the commit head before the first commit. */
  ghost predicate NoEarlyRead(s: State, schedule: seq<Actor>)
    requires Shaped(s)
  {
    forall i | 0 <= i < |schedule| :: !ReadsEarly(After(s, schedule, i), schedule[i])
  }

  predicate ReadsEarly(s: State, a: Actor) {
    a.ByWorker? && a.w < |s.workers| && s.workers[a.w].ReadCommit? && s.commit == 0
  }

  ghost predicate HeadsReadLate(s: State) {
    forall w | 0 <= w < |s.workers| ::
      (s.workers[w].ReadRequest? ==> s.workers[w].ch > 0) && (s.workers[w].Claim? ==> s.workers[w].ch > 0)
  }

  lemma LateStep(s: State, a: Actor)
    requires Shaped(s) && HeadsReadLate(s) && !ReadsEarly(s, a)
    ensures HeadsReadLate(Step(s, a))
  {
    hide ProducerStep, WorkerStep;
    match a
    case ByProducer(p, task) => if p < |s.producers| { ProducerKeepsWorkers(s, p, task); }
    case ByWorker(w) => if w < |s.workers| { WorkerMovesItself(s, w); }
  }

  lemma ProducerKeepsWorkers(s: State, p: nat, task: Task)
    requires Shaped(s) && p < |s.producers|
    ensures ProducerStep(s, p, task).workers == s.workers
  {
  }

  lemma WorkerMovesItself(s: State, w: nat)
    requires Shaped(s) && w < |s.workers|
    ensures var pc := WorkerStep(s, w).workers;
            && |pc| == |s.workers| && (forall v | 0 <= v < |pc| && v != w :: pc[v] == s.workers[v])
            && (pc[w].ReadRequest? ==> s.workers[w].ReadCommit? && pc[w].ch == s.commit)
            && (pc[w].Claim? ==> s.workers[w].ReadRequest? && pc[w].ch == s.workers[w].ch)
  {
  }

  lemma {:induction false} LateReads(s: State, schedule: seq<Actor>, i: nat)
    requires Shaped(s) && HeadsReadLate(s) && NoEarlyRead(s, schedule) && i <= |schedule|
    ensures HeadsReadLate(After(s, schedule, i))
  {
    hide Step, HeadsReadLate, ReadsEarly;
    if i > 0 {
      LateReads(s, schedule, i - 1);
      AfterStep(s, schedule, i - 1);
      LateStep(After(s, schedule, i - 1), schedule[i - 1]);
    }
  }

  /** Workers that first look at the ring after the first commit never claim prematurely. */
  lemma {:induction false} LateWorkersNeverPremature(size: nat, producers: nat, workers: nat, schedule: seq<Actor>)
    requires size >= 2
    requires NoEarlyRead(Init(size, producers, workers), schedule)
    ensures NeverPremature(Init(size, producers, workers), schedule)
  {
    var s := Init(size, producers, workers);
    forall i | 0 <= i < |schedule| ensures !Premature(After(s, schedule, i), schedule[i]) {
      LateReads(s, schedule, i);
    }
  }

  // ---------------------------------------------------------------------------
  // No stranded commit or release

  /** Between its reserve CAS and its return. */
  predicate Scheduling(pc: Producer) {
    pc.Fill? || pc.MarkCommitted? || pc.CommitRead? || pc.CommitCheck? || pc.CommitCas?
  }

  /** Between its claim and the end of release_current_task. */
  predicate Releasing(pc: Worker) {
    pc.Copy? || pc.MarkReleased? || pc.ReleaseRead? || pc.ReleaseCheck? || pc.ReleaseCas?
  }

  /** Although every helper loop may give up on a stale head, a quiet side of the ring has
      nothing left to commit, or nothing left to release. */
  lemma {:induction false} NothingStranded(size: nat, producers: nat, workers: nat, schedule: seq<Actor>)
    requires size >= 2 && NeverPremature(Init(size, producers, workers), schedule)
    ensures var s := Exec(Init(size, producers, workers), schedule);
            && ((forall p | 0 <= p < |s.producers| :: !Scheduling(s.producers[p])) ==> s.commit == s.reserve)
            && ((forall w | 0 <= w < |s.workers| :: !Releasing(s.workers[w])) ==> s.release == s.request)
  {
    var s0 := Init(size, producers, workers);
    InitInv(size, producers, workers);
    assert schedule[..|schedule|] == schedule;
    InvAfter(s0, schedule, |schedule|);
    var s := Exec(s0, schedule);
    if s.commit < s.reserve { assert IndexOk(s, s.commit); }
    if s.release < s.request { assert IndexOk(s, s.release); }
  }

  // ---------------------------------------------------------------------------
  // Refinement of an unbounded FIFO

  /** The specification: an unbounded queue, the task each busy worker holds, and the tasks
      executed so far. */
  datatype Fifo = Fifo(queue: seq<seq<int>>, held: map<nat, seq<int>>, done: seq<seq<int>>)

  ghost predicate Enqueues(a: Fifo, b: Fifo) {
    exists t :: b == a.(queue := a.queue + [t])
  }

  predicate DequeuesTo(a: Fifo, b: Fifo, w: nat) {
    a.queue != [] && w !in a.held && b == a.(queue := a.queue[1..], held := a.held[w := a.queue[0]])
  }

  predicate Completes(a: Fifo, b: Fifo, w: nat) {
    w in a.held && b == a.(held := a.held - {w}, done := a.done + [a.held[w]])
  }

  ghost predicate FifoNext(a: Fifo, b: Fifo) {
    a == b || Enqueues(a, b) || (exists w :: DequeuesTo(a, b, w)) || (exists w :: Completes(a, b, w))
  }

  predicate Holds(s: State, w: nat) {
    w < |s.workers| && 0 <= ClaimOf(s.workers[w]) < |s.tasks|
  }

  ghost function Abs(s: State): Fifo
    requires Histories(s) && s.request <= s.reserve
  {
    Fifo(s.tasks[s.request..],
         map w: nat | w < |s.workers| && Holds(s, w) :: s.tasks[ClaimOf(s.workers[w])],
         seq(|s.ran|, i requires 0 <= i < |s.ran| => s.ran[i].words))
  }

  lemma SameAbs(s: State, s': State)
    requires Inv(s) && Inv(s')
    requires s'.tasks == s.tasks && s'.request == s.request && s'.ran == s.ran && |s'.workers| == |s.workers|
    requires forall w | 0 <= w < |s.workers| :: ClaimOf(s'.workers[w]) == ClaimOf(s.workers[w])
    ensures Abs(s') == Abs(s)
  {
    assert Abs(s').held == Abs(s).held;
  }

  lemma ClaimKept(s: State, w: nat)
    requires Shaped(s)
    requires w < |s.workers| ==> !s.workers[w].Run? && (s.workers[w].Claim? ==> s.workers[w].rh != s.request)
    ensures var s' := Step(s, ByWorker(w));
            && s'.tasks == s.tasks && s'.request == s.request && s'.ran == s.ran && |s'.workers| == |s.workers|
            && forall v | 0 <= v < |s.workers| :: ClaimOf(s'.workers[v]) == ClaimOf(s.workers[v])
  {
  }

  lemma ReserveEnqueues(s: State, p: nat, task: Task)
    requires Inv(s) && p < |s.producers| && Inv(ProducerStep(s, p, task))
    requires s.producers[p].Reserve? && s.reserve == s.producers[p].wh
    ensures Enqueues(Abs(s), Abs(ProducerStep(s, p, task)))
  {
    var s' := ProducerStep(s, p, task);
    var f, f' := Abs(s), Abs(s');
    assert f'.queue == f.queue + [s.producers[p].task];
    forall w | 0 <= w < |s.workers| && ClaimOf(s.workers[w]) >= 0 ensures ClaimOf(s.workers[w]) < |s.tasks| {
      assert WorkerOk(s, w);
    }
    assert f'.held == f.held;
  }

  lemma ClaimDequeues(s: State, w: nat)
    requires Inv(s) && w < |s.workers| && Inv(WorkerStep(s, w))
    requires s.workers[w].Claim? && s.request == s.workers[w].rh
    ensures DequeuesTo(Abs(s), Abs(WorkerStep(s, w)), w)
  {
    var f, f' := Abs(s), Abs(WorkerStep(s, w));
    assert WorkerOk(s, w);
    assert f'.queue == f.queue[1..];
    assert f'.held == f.held[w := f.queue[0]];
  }

  lemma RunCompletes(s: State, w: nat)
    requires Inv(s) && w < |s.workers| && Inv(WorkerStep(s, w)) && s.workers[w].Run?
    ensures Completes(Abs(s), Abs(WorkerStep(s, w)), w)
  {
    var f, f' := Abs(s), Abs(WorkerStep(s, w));
    assert WorkerOk(s, w);
    assert f'.held == f.held - {w};
    assert f'.done == f.done + [f.held[w]];
  }

  /** Every step of the ring is a step of the FIFO or no step at all: tasks leave in the
      order their indices were reserved, each goes to one worker, and a worker executes the
      very task it dequeued. */
  lemma {:induction false} StepRefinesFifo(s: State, a: Actor)
    requires Inv(s) && !Premature(s, a)
    ensures Inv(Step(s, a)) && FifoNext(Abs(s), Abs(Step(s, a)))
  {
    StepKeepsInv(s, a);
    var s' := Step(s, a);
    match a {
      case ByProducer(p, _) =>
        if p < |s.producers| && s.producers[p].Reserve? && s.reserve == s.producers[p].wh {
          ReserveEnqueues(s, p, a.task);
        } else {
          SameAbs(s, s');
        }
      case ByWorker(w) =>
        if w < |s.workers| && s.workers[w].Claim? && s.request == s.workers[w].rh {
          ClaimDequeues(s, w);
        } else if w < |s.workers| && s.workers[w].Run? {
          RunCompletes(s, w);
        } else {
          ClaimKept(s, w);
          SameAbs(s, s');
        }
    }
  }

  /** In every run without a premature claim, each step of the schedule is a step of the
      FIFO, which starts empty. */
  lemma {:induction false} RunRefinesFifo(size: nat, producers: nat, workers: nat, schedule: seq<Actor>, i: nat)
    requires size >= 2 && i < |schedule| && NeverPremature(Init(size, producers, workers), schedule)
    ensures var s := Init(size, producers, workers);
            && Inv(s) && Abs(s) == Fifo([], map[], [])
            && Inv(After(s, schedule, i)) && Inv(After(s, schedule, i + 1))
            && FifoNext(Abs(After(s, schedule, i)), Abs(After(s, schedule, i + 1)))
  {
    var s := Init(size, producers, workers);
    InitInv(size, producers, workers);
    InvAfter(s, schedule, i);
    AfterStep(s, schedule, i);
    hide Step, Exec;
    StepRefinesFifo(After(s, schedule, i), schedule[i]);
  }

  /** What a whole run delivers: what a worker executed at index n is the task of the
      producer that reserved n, and no index is executed twice. */
  lemma {:induction false} RunsWhatWasScheduled(size: nat, producers: nat, workers: nat, schedule: seq<Actor>)
    requires size >= 2 && NeverPremature(Init(size, producers, workers), schedule)
    ensures var s := Exec(Init(size, producers, workers), schedule);
            && (forall i | 0 <= i < |s.ran| :: s.ran[i].n < |s.tasks| && s.ran[i].words == s.tasks[s.ran[i].n])
            && (forall i, j | 0 <= i < j < |s.ran| :: s.ran[i].n != s.ran[j].n)
            && (forall n | s.release <= n < s.reserve && At(s, n).mark == Committed(n) ::
                  n < |s.tasks| && At(s, n).words == s.tasks[n])
  {
    var s0 := Init(size, producers, workers);
    InitInv(size, producers, workers);
    assert schedule[..|schedule|] == schedule;
    InvAfter(s0, schedule, |schedule|);
    var s := Exec(s0, schedule);
    forall n | s.release <= n < s.reserve && At(s, n).mark == Committed(n)
      ensures n < |s.tasks| && At(s, n).words == s.tasks[n]
    {
      CommittedIsPublished(s, n);
    }
  }

  /** The code's own assertions on lines 119, 140, 142, 330 and 359 hold in every invariant
      state. For the two that read a pair of heads, this is both read at one moment. */
  lemma AssertionsHold(s: State)
    requires Inv(s)
    ensures forall p | 0 <= p < |s.producers| && s.producers[p].Fill? ::
              s.release <= s.producers[p].n < s.reserve && s.reserve - s.release < s.size - 1
    ensures forall p | 0 <= p < |s.producers| && s.producers[p].CommitCas? :: s.producers[p].ch < s.reserve
    ensures s.request <= s.commit
    ensures forall w | 0 <= w < |s.workers| && s.workers[w].Copy? ::
          At(s, s.workers[w].n).mark == Committed(s.workers[w].n)
    ensures forall w | 0 <= w < |s.workers| && s.workers[w].ReleaseCas? :: s.workers[w].relh < s.commit
  {
    forall p | 0 <= p < |s.producers| && s.producers[p].CommitCas?
      ensures s.producers[p].ch < s.reserve
    {
      assert ProducerOk(s, p);
      if s.producers[p].ch == s.commit { CommittedIsPublished(s, s.commit); }
    }
    forall p | 0 <= p < |s.producers| && s.producers[p].Fill?
      ensures s.release <= s.producers[p].n < s.reserve
    {
      assert ProducerOk(s, p);
    }
    forall w | 0 <= w < |s.workers| && s.workers[w].Copy?
      ensures At(s, s.workers[w].n).mark == Committed(s.workers[w].n)
    {
      assert WorkerOk(s, w);
    }
    forall w | 0 <= w < |s.workers| && s.workers[w].ReleaseCas? ensures s.workers[w].relh < s.commit {
      assert WorkerOk(s, w);
    }
  }
}
