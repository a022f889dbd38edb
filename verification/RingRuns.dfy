/** Runs of the threadpool's ring in which a property that the code seems to promise fails, and
    the assertions that read two heads one after the other (src/lib/threadpool/threadpool.c). */
module RingRuns {
  import opened ThreadpoolRing

  lemma SetTwiceW(s: State, w: nat, x: Worker, y: Worker)
    requires w < |s.workers|
    ensures SetW(SetW(s, w, x), w, y) == SetW(s, w, y)
  {
    assert s.workers[w := x][w := y] == s.workers[w := y];
  }

  /** The steps of a worker that wakes while both heads are 0. */
  lemma EarlySteps(s: State, w: nat)
    requires Shaped(s) && w < |s.workers| && s.workers[w].Waiting? && s.commit == s.request == 0
    ensures var b := ByWorker(w);
            && Step(s, b) == SetW(s, w, ReadCommit)
            && Step(SetW(s, w, ReadCommit), b) == SetW(s, w, ReadRequest(0))
            && Step(SetW(s, w, ReadRequest(0)), b) == SetW(s, w, Claim(0, 0))
            && Step(SetW(s, w, Claim(0, 0)), b) ==
                 SetW(s, w, Copy(0, [])).(request := 1, claimedBy := s.claimedBy + [w])
  {
    SetTwiceW(s, w, ReadCommit, ReadRequest(0));
    SetTwiceW(s, w, ReadRequest(0), Claim(0, 0));
    SetTwiceW(s, w, Claim(0, 0), Copy(0, []));
  }

  /** The failing family: whatever the producers have done so far, a worker woken while the
      commit head is still 0 claims index 0. */
  lemma EarlyWorkerClaims(s: State, w: nat)
    requires Shaped(s) && w < |s.workers| && s.workers[w].Waiting? && s.commit == s.request == 0
    ensures Exec(s, Times(ByWorker(w), 4)) == SetW(s, w, Copy(0, [])).(request := 1, claimedBy := s.claimedBy + [w])
  {
    hide Step, SetW;
    var b := ByWorker(w);
    assert Exec(s, Times(b, 0)) == s;
    TimesNext(s, b, 0);
    TimesNext(s, b, 1);
    TimesNext(s, b, 2);
    TimesNext(s, b, 3);
    EarlySteps(s, w);
  }

  /** So the request head passes the commit head. */
  lemma EarlyWorkerBreaksOrder(s: State, w: nat)
    requires Shaped(s) && w < |s.workers| && s.workers[w].Waiting? && s.commit == s.request == 0
    ensures !Ordered(Exec(s, Times(ByWorker(w), 4)))
  {
    EarlyWorkerClaims(s, w);
  }

  lemma {:induction false} ExecAppend(s: State, a: seq<Actor>, b: seq<Actor>)
    requires Shaped(s)
    ensures Exec(s, a + b) == Exec(Exec(s, a), b)
  {
    if b == [] {
      assert a + b == a;
    } else {
      assert (a + b)[..|a + b| - 1] == a + b[..|b| - 1];
      ExecAppend(s, a, b[..|b| - 1]);
    }
  }

  /** k steps of one thread. */
  function Times(a: Actor, k: nat): seq<Actor> { seq(k, _ => a) }

  lemma TimesNext(s: State, a: Actor, k: nat)
    requires Shaped(s)
    ensures Exec(s, Times(a, k + 1)) == Step(Exec(s, Times(a, k)), a)
  {
    hide Step;
    assert Times(a, k + 1)[..k] == Times(a, k);
  }

  lemma ThreeSteps(s: State, s1: State, s2: State, s3: State, a: Actor)
    requires Shaped(s) && Shaped(s1) && Shaped(s2) && Step(s, a) == s1 && Step(s1, a) == s2 && Step(s2, a) == s3
    ensures Exec(s, Times(a, 3)) == s3
  {
    hide Step;
    assert Exec(s, Times(a, 0)) == s;
    TimesNext(s, a, 0);
    TimesNext(s, a, 1);
    TimesNext(s, a, 2);
  }

  lemma SetTwice(s: State, p: nat, x: Producer, y: Producer)
    requires p < |s.producers|
    ensures SetP(SetP(s, p, x), p, y) == SetP(s, p, y)
  {
    assert s.producers[p := x][p := y] == s.producers[p := y];
  }

  /** The steps of a producer up to its CAS. */
  lemma ReservingSteps(s: State, p: nat, task: Task)
    requires Shaped(s) && p < |s.producers| && s.producers[p].Outside? && !Full(s, s.reserve, s.release)
    ensures var a := ByProducer(p, task);
            && Step(s, a) == SetP(s, p, ReadReserve(task))
            && Step(SetP(s, p, ReadReserve(task)), a) == SetP(s, p, ReadRelease(task, s.reserve))
            && Step(SetP(s, p, ReadRelease(task, s.reserve)), a) == SetP(s, p, Reserve(task, s.reserve, s.release))
  {
    SetTwice(s, p, ReadReserve(task), ReadRelease(task, s.reserve));
    SetTwice(s, p, ReadRelease(task, s.reserve), Reserve(task, s.reserve, s.release));
  }

  lemma ReachesCas(s: State, p: nat, task: Task)
    requires Shaped(s) && p < |s.producers| && s.producers[p].Outside? && !Full(s, s.reserve, s.release)
    ensures Exec(s, Times(ByProducer(p, task), 3)) == SetP(s, p, Reserve(task, s.reserve, s.release))
  {
    hide Step, SetP;
    var a := ByProducer(p, task);
    assert Exec(s, Times(a, 0)) == s;
    TimesNext(s, a, 0);
    TimesNext(s, a, 1);
    TimesNext(s, a, 2);
    ReservingSteps(s, p, task);
  }

  lemma CasSucceeds(s: State, p: nat, task: Task)
    requires Shaped(s) && p < |s.producers|
    ensures Step(SetP(s, p, Reserve(task, s.reserve, s.release)), ByProducer(p, task)) ==
              SetP(s, p, Fill(task, s.reserve, 0)).(
                reserve := s.reserve + 1, tasks := s.tasks + [task], reservedBy := s.reservedBy + [p])
  {
    SetTwice(s, p, Reserve(task, s.reserve, s.release), Fill(task, s.reserve, 0));
  }

  /** A producer that finds room and is not disturbed reserves the next index. */
  lemma ReservesNext(s: State, p: nat, task: Task)
    requires Shaped(s) && p < |s.producers| && s.producers[p].Outside? && !Full(s, s.reserve, s.release)
    ensures Exec(s, Times(ByProducer(p, task), 4)) ==
              SetP(s, p, Fill(task, s.reserve, 0)).(
                reserve := s.reserve + 1, tasks := s.tasks + [task], reservedBy := s.reservedBy + [p])
  {
    hide Exec, Step, SetP, Times;
    ReachesCas(s, p, task);
    TimesNext(s, ByProducer(p, task), 3);
    CasSucceeds(s, p, task);
  }

  lemma FillsWords(s: State, p: nat, a: Actor)
    requires Shaped(s) && p < |s.producers| && a.ByProducer? && a.p == p
    requires s.producers[p].Fill? && s.producers[p].k == 0
    ensures var pc, r := s.producers[p], Exec(s, Times(a, 3)); var qc := Fill(pc.task, pc.n, 3);
            SlotOnly(s, r, p, qc, pc.n) && p < |r.producers| && r.producers[p] == qc
  {
    var t, n := s.producers[p].task, s.producers[p].n;
    hide Step, SlotOnly;
    assert Exec(s, Times(a, 0)) == s;
    TimesNext(s, a, 0);
    TimesNext(s, a, 1);
    TimesNext(s, a, 2);
    hide Exec, Times;
    var s1, s2, s3 := Exec(s, Times(a, 1)), Exec(s, Times(a, 2)), Exec(s, Times(a, 3));
    FillsWord(s, p, a);
    FillsWord(s1, p, a);
    SlotOnlyTwice(s, s1, s2, p, Fill(t, n, 1), Fill(t, n, 2), n);
    FillsWord(s2, p, a);
    SlotOnlyTwice(s, s2, s3, p, Fill(t, n, 2), Fill(t, n, 3), n);
  }

  /** It fills its slot and marks it. */
  lemma FillsSlot(s: State, p: nat, a: Actor)
    requires Shaped(s) && p < |s.producers| && a.ByProducer? && a.p == p
    requires s.producers[p].Fill? && s.producers[p].k == 0
    ensures var r, n := Exec(s, Times(a, 5)), s.producers[p].n;
            SlotOnly(s, r, p, CommitRead, n) && At(r, n).mark == Committed(n)
  {
    hide Step, SlotOnly, Exec;
    var t, n := s.producers[p].task, s.producers[p].n;
    FillsWords(s, p, a);
    TimesNext(s, a, 3);
    TimesNext(s, a, 4);
    var s3, s4 := Exec(s, Times(a, 3)), Exec(s, Times(a, 4));
    MarksSlot(s3, p, a);
    SlotOnlyTwice(s, s3, s4, p, Fill(t, n, 3), MarkCommitted(n), n);
    MarksSlot(s4, p, a);
    SlotOnlyTwice(s, s4, Exec(s, Times(a, 5)), p, MarkCommitted(n), CommitRead, n);
  }

  /** Between s and r only the counter of p, now pc, and the slot of index n may differ. */
  predicate SlotOnly(s: State, r: State, p: nat, pc: Producer, n: nat)
    requires Shaped(s) && p < |s.producers|
  {
    && Shaped(r) && r.size == s.size && r.producers == s.producers[p := pc]
    && r == s.(producers := r.producers, slots := r.slots)
    && (forall i | 0 <= i < s.size && i != n % s.size :: r.slots[i] == s.slots[i])
  }

  lemma SlotOnlyTwice(s: State, r: State, q: State, p: nat, pc: Producer, qc: Producer, n: nat)
    requires Shaped(s) && p < |s.producers| && Shaped(r) && p < |r.producers|
    requires SlotOnly(s, r, p, pc, n) && SlotOnly(r, q, p, qc, n)
    ensures SlotOnly(s, q, p, qc, n) && Shaped(q) && p < |q.producers| && q.producers[p] == qc
  {
    assert s.producers[p := pc][p := qc] == s.producers[p := qc];
  }

  lemma MarksSlot(s: State, p: nat, a: Actor)
    requires Shaped(s) && p < |s.producers| && a.ByProducer? && a.p == p
    requires s.producers[p].MarkCommitted? || (s.producers[p].Fill? && s.producers[p].k == 3)
    ensures var pc, r := s.producers[p], Step(s, a);
            && SlotOnly(s, r, p, if pc.Fill? then MarkCommitted(pc.n) else CommitRead, pc.n)
            && (pc.MarkCommitted? ==> At(r, pc.n).mark == Committed(pc.n))
  {
  }

  lemma FillsWord(s: State, p: nat, a: Actor)
    requires Shaped(s) && p < |s.producers| && a.ByProducer? && a.p == p && s.producers[p].Fill? && s.producers[p].k < 3
    ensures var pc, r := s.producers[p], Step(s, a); var qc := Fill(pc.task, pc.n, pc.k + 1);
            SlotOnly(s, r, p, qc, pc.n) && Shaped(r) && p < |r.producers| && r.producers[p] == qc
  {
  }

  /** It finds the commit head still unmarked and returns. */
  lemma ReturnsEarly(s: State, p: nat, a: Actor)
    requires Shaped(s) && p < |s.producers| && a.ByProducer? && a.p == p && s.producers[p].CommitRead?
    requires At(s, s.commit).mark != Committed(s.commit)
    ensures Exec(s, Times(a, 2)) == SetP(s, p, Outside)
  {
    assert Exec(s, Times(a, 0)) == s;
    TimesNext(s, a, 0);
    TimesNext(s, a, 1);
    hide Exec;
    SetTwice(s, p, CommitCheck(s.commit), Outside);
    assert Exec(s, Times(a, 1)) == SetP(s, p, CommitCheck(s.commit));
  }

  /** One whole call of Threadpool_Schedule while index 0 is still unwritten: it succeeds, and
      returns without committing anything. */
  lemma SchedulesBehindZero(s: State, p: nat, task: Task)
    requires Shaped(s) && p < |s.producers| && s.producers[p].Outside? && !Full(s, s.reserve, s.release)
    requires s.commit == 0 < s.reserve < s.size && s.slots[0].mark != Committed(0)
    ensures var r := Exec(s, Times(ByProducer(p, task), 11));
            && r.producers == s.producers && r.reserve == s.reserve + 1 && r.reservedBy == s.reservedBy + [p]
            && r == s.(reserve := r.reserve, tasks := r.tasks, reservedBy := r.reservedBy, slots := r.slots)
            && |r.slots| == s.size && r.slots[0] == s.slots[0]
  {
    hide Exec, Step, Times;
    var a, n := ByProducer(p, task), s.reserve;
    ElevenSteps(s, a);
    ReservesNext(s, p, task);
    var s4 := Exec(s, Times(a, 4));
    FillsSlot(s4, p, a);
    var s9 := Exec(s4, Times(a, 5));
    ModUnique(n, 0, n, s.size);
    ModUnique(0, 0, 0, s.size);
    assert s9.slots[0] == s.slots[0];
    ReturnsEarly(s9, p, a);
    assert s9.producers[p := Outside] == s.producers;
  }

  lemma ElevenSteps(s: State, a: Actor)
    requires Shaped(s)
    ensures Exec(s, Times(a, 11)) == Exec(Exec(Exec(s, Times(a, 4)), Times(a, 5)), Times(a, 2))
  {
    hide Exec;
    assert Times(a, 11) == Times(a, 4) + (Times(a, 5) + Times(a, 2));
    ExecAppend(s, Times(a, 4), Times(a, 5) + Times(a, 2));
    ExecAppend(Exec(s, Times(a, 4)), Times(a, 5), Times(a, 2));
  }

  /** A run the code can take. Producer 0 stalls right after reserving index 0. Producer 1
      schedules two tasks and returns from both calls, so a worker has been created and woken.
      The worker then claims index 0, whose slot does not carry its commit mark: the assertion
      on line 330 of threadpool.c fails, and the heads are out of order. */
  lemma EarlyClaimExample(task: Task)
    ensures var stall, call := Times(ByProducer(0, task), 4), Times(ByProducer(1, task), 11);
            var work := Times(ByWorker(0), 4);
            var s := Exec(Init(8, 2, 1), stall + call + call);
            var r := Exec(Init(8, 2, 1), stall + call + call + work);
            && |s.producers| == 2 && s.producers[1].Outside? && s.reservedBy == [0, 1, 1] && s.workers == [Waiting]
            && !Ordered(r) && r.workers == [Copy(0, [])] && At(r, 0).mark != Committed(0)
  {
    var stall, call, work := Times(ByProducer(0, task), 4), Times(ByProducer(1, task), 11), Times(ByWorker(0), 4);
    var s0 := Init(8, 2, 1);
    ExecAppend(s0, stall, call);
    ExecAppend(s0, stall + call, call);
    ExecAppend(s0, stall + call + call, work);
    ReservesNext(s0, 0, task);
    var s1 := Exec(s0, stall);
    SchedulesBehindZero(s1, 1, task);
    var s2 := Exec(s1, call);
    SchedulesBehindZero(s2, 1, task);
    var s3 := Exec(s2, call);
    EarlyWorkerClaims(s3, 0);
    hide Exec, Step;
  }

  // ---------------------------------------------------------------------------
  // Two heads read one after the other

  lemma HeadsGrow(s: State, a: Actor)
    requires Shaped(s)
    ensures var r := Step(s, a);
            s.reserve <= r.reserve && s.commit <= r.commit && s.request <= r.request && s.release <= r.release
  {
  }

  lemma {:induction false} HeadsGrowOver(s: State, schedule: seq<Actor>, i: nat, j: nat)
    requires Shaped(s) && i <= j <= |schedule|
    ensures var a, b := After(s, schedule, i), After(s, schedule, j);
            a.reserve <= b.reserve && a.commit <= b.commit && a.request <= b.request && a.release <= b.release
    decreases j
  {
    if i < j {
      hide Step;
      HeadsGrowOver(s, schedule, i, j - 1);
      AfterStep(s, schedule, j - 1);
      HeadsGrow(After(s, schedule, j - 1), schedule[j - 1]);
    }
  }

  /** Lines 119 and 142 read two heads one after the other, and C leaves the order open. When
      the left one is read first, at step i of a run, and the right one at a later step j, both
      assertions hold, however many steps lie between: the difference on line 119 neither wraps
      nor reaches the queue size, and the request head does not pass the commit head. */
  lemma {:induction false} AssertionsAcrossSteps(
    size: nat, producers: nat, workers: nat, schedule: seq<Actor>, i: nat, j: nat)
    requires size >= 2 && NeverPremature(Init(size, producers, workers), schedule) && i <= j <= |schedule|
    ensures var s := Init(size, producers, workers); var a, b := After(s, schedule, i), After(s, schedule, j);
            && a.request <= b.commit
            && forall p | 0 <= p < |a.producers| && p < |b.producers|
                          && a.producers[p].Fill? && a.producers[p] == b.producers[p] ::
                 0 < a.reserve - b.release < size - 1
  {
    var s := Init(size, producers, workers);
    InitInv(size, producers, workers);
    InvAfter(s, schedule, i);
    InvAfter(s, schedule, j);
    HeadsGrowOver(s, schedule, i, j);
    SizeStays(s, schedule, i);
    var a, b := After(s, schedule, i), After(s, schedule, j);
    hide Exec;
    forall p | 0 <= p < |a.producers| && p < |b.producers| && a.producers[p].Fill? && a.producers[p] == b.producers[p]
      ensures b.release <= a.producers[p].n < a.reserve
    {
      assert ProducerOk(a, p) && ProducerOk(b, p);
    }
  }

  lemma {:induction false} SizeStays(s: State, schedule: seq<Actor>, i: nat)
    requires Shaped(s) && i <= |schedule|
    ensures After(s, schedule, i).size == s.size
  {
    if i > 0 {
      SizeStays(s, schedule, i - 1);
      AfterStep(s, schedule, i - 1);
      assert Step(After(s, schedule, i - 1), schedule[i - 1]).size == After(s, schedule, i - 1).size;
    }
  }

  /** When line 119 reads the release head first, at step i, and the reserve head at a later step
      j, the difference still does not wrap, but all that bounds it is about twice the ring. */
  lemma {:induction false} ReleaseReadFirst(
    size: nat, producers: nat, workers: nat, schedule: seq<Actor>, i: nat, j: nat, p: nat)
    requires size >= 2 && NeverPremature(Init(size, producers, workers), schedule) && i <= j <= |schedule|
    ensures var s := Init(size, producers, workers); var a, b := After(s, schedule, i), After(s, schedule, j);
            p < |a.producers| && p < |b.producers| && a.producers[p].Fill? && a.producers[p] == b.producers[p] ==>
              0 < b.reserve - a.release <= 2 * size - 5
  {
    var s := Init(size, producers, workers);
    InitInv(size, producers, workers);
    InvAfter(s, schedule, i);
    InvAfter(s, schedule, j);
    HeadsGrowOver(s, schedule, i, j);
    SizeStays(s, schedule, i);
    SizeStays(s, schedule, j);
    var a, b := After(s, schedule, i), After(s, schedule, j);
    hide Exec;
    if p < |a.producers| && p < |b.producers| && a.producers[p].Fill? && a.producers[p] == b.producers[p] {
      assert ProducerOk(a, p) && ProducerOk(b, p);
    }
  }

  // ---------------------------------------------------------------------------
  // Undisturbed calls

  lemma CommittingSteps(s: State, p: nat, a: Actor)
    requires Shaped(s) && p < |s.producers| && a.ByProducer? && a.p == p && s.producers[p].CommitRead?
    requires At(s, s.commit).mark == Committed(s.commit)
    ensures var c := s.commit;
            && Step(s, a) == SetP(s, p, CommitCheck(c))
            && Step(SetP(s, p, CommitCheck(c)), a) == SetP(s, p, CommitCas(c))
            && Step(SetP(s, p, CommitCas(c)), a) == s.(commit := c + 1)
  {
    SetTwice(s, p, CommitCheck(s.commit), CommitCas(s.commit));
    SetTwice(s, p, CommitCas(s.commit), CommitRead);
    assert s.producers[p := CommitRead] == s.producers;
  }

  /** A producer that finds its own mark at the commit head advances it. */
  lemma CommitsOwn(s: State, p: nat, a: Actor)
    requires Shaped(s) && p < |s.producers| && a.ByProducer? && a.p == p && s.producers[p].CommitRead?
    requires At(s, s.commit).mark == Committed(s.commit)
    ensures Exec(s, Times(a, 3)) == s.(commit := s.commit + 1)
  {
    hide Step, Exec, Times;
    CommittingSteps(s, p, a);
    ThreeSteps(s, SetP(s, p, CommitCheck(s.commit)), SetP(s, p, CommitCas(s.commit)), s.(commit := s.commit + 1), a);
  }

  lemma Splits(s: State, a: Actor, j: nat, k: nat)
    requires Shaped(s)
    ensures Exec(s, Times(a, j + k)) == Exec(Exec(s, Times(a, j)), Times(a, k))
  {
    assert Times(a, j + k) == Times(a, j) + Times(a, k);
    ExecAppend(s, Times(a, j), Times(a, k));
  }

  /** Between s and r the call of producer p for the next index came as far as its commit. */
  predicate Scheduled(s: State, r: State, p: nat, pc: Producer)
    requires Shaped(s) && p < |s.producers|
  {
    && Shaped(r) && r.size == s.size && r.reserve == r.commit == s.reserve + 1
    && r.request == s.request && r.release == s.release
    && r.producers == s.producers[p := pc] && r.workers == s.workers
    && (forall i | 0 <= i < s.size && i != s.reserve % s.size :: r.slots[i] == s.slots[i])
  }

  /** Twelve steps: reserve, fill, mark, and commit. */
  lemma SchedulesNext(s: State, p: nat, task: Task)
    requires Shaped(s) && p < |s.producers| && s.producers[p].Outside? && !Full(s, s.reserve, s.release)
    requires s.commit == s.reserve
    ensures Scheduled(s, Exec(s, Times(ByProducer(p, task), 12)), p, CommitRead)
  {
    hide Exec, Step, Times;
    var a := ByProducer(p, task);
    Splits(s, a, 4, 8);
    ReservesNext(s, p, task);
    var s4 := Exec(s, Times(a, 4));
    Splits(s4, a, 5, 3);
    FillsSlot(s4, p, a);
    var s9 := Exec(s4, Times(a, 5));
    CommitsOwn(s9, p, a);
    assert s.producers[p := Fill(task, s.reserve, 0)][p := CommitRead] == s.producers[p := CommitRead];
  }

  /** Two more: the next index is not committed, and the call returns. */
  lemma SchedulesAlone(s: State, p: nat, task: Task)
    requires Shaped(s) && p < |s.producers| && s.producers[p].Outside? && !Full(s, s.reserve, s.release)
    requires s.commit == s.reserve && At(s, s.reserve + 1).mark != Committed(s.reserve + 1)
    ensures Scheduled(s, Exec(s, Times(ByProducer(p, task), 14)), p, Outside)
  {
    hide Exec, Step, Times;
    var a := ByProducer(p, task);
    Splits(s, a, 12, 2);
    SchedulesNext(s, p, task);
    var s12 := Exec(s, Times(a, 12));
    ModDistinct(s.reserve, s.reserve + 1, s.size);
    ReturnsEarly(s12, p, a);
    assert s.producers[p := CommitRead][p := Outside] == s.producers[p := Outside];
  }

  lemma ClaimingSteps(s: State, w: nat)
    requires Shaped(s) && w < |s.workers| && s.workers[w].Waiting? && s.request < s.commit
    ensures var b, c, n := ByWorker(w), s.commit, s.request;
            && Step(s, b) == SetW(s, w, ReadCommit)
            && Step(SetW(s, w, ReadCommit), b) == SetW(s, w, ReadRequest(c))
            && Step(SetW(s, w, ReadRequest(c)), b) == SetW(s, w, Claim(c, n))
            && Step(SetW(s, w, Claim(c, n)), b) ==
                 SetW(s, w, Copy(n, [])).(request := n + 1, claimedBy := s.claimedBy + [w])
  {
    SetTwiceW(s, w, ReadCommit, ReadRequest(s.commit));
    SetTwiceW(s, w, ReadRequest(s.commit), Claim(s.commit, s.request));
    SetTwiceW(s, w, Claim(s.commit, s.request), Copy(s.request, []));
  }

  /** A worker that finds something committed claims it. */
  lemma ClaimsNext(s: State, w: nat)
    requires Shaped(s) && w < |s.workers| && s.workers[w].Waiting? && s.request < s.commit
    ensures Exec(s, Times(ByWorker(w), 4)) ==
              SetW(s, w, Copy(s.request, [])).(request := s.request + 1, claimedBy := s.claimedBy + [w])
  {
    hide Step, SetW;
    var b := ByWorker(w);
    assert Exec(s, Times(b, 0)) == s;
    TimesNext(s, b, 0);
    TimesNext(s, b, 1);
    TimesNext(s, b, 2);
    TimesNext(s, b, 3);
    ClaimingSteps(s, w);
  }

  lemma CopiesWord(s: State, w: nat)
    requires Shaped(s) && w < |s.workers| && s.workers[w].Copy? && |s.workers[w].got| < 3
    ensures var pc, r := s.workers[w], Step(s, ByWorker(w));
            exists got: seq<int> :: |got| == |pc.got| + 1 && r == SetW(s, w, Copy(pc.n, got))
  {
    var pc := s.workers[w];
    var got := pc.got + [At(s, pc.n).words[|pc.got|]];
    assert Step(s, ByWorker(w)) == SetW(s, w, Copy(pc.n, got));
  }

  /** The worker copies its task and is ready to mark the slot. */
  lemma CopiesTask(s: State, w: nat) returns (got: seq<int>)
    requires Shaped(s) && w < |s.workers| && s.workers[w].Copy? && s.workers[w].got == []
    ensures Exec(s, Times(ByWorker(w), 4)) == SetW(s, w, MarkReleased(s.workers[w].n, got))
  {
    var b, n := ByWorker(w), s.workers[w].n;
    assert Exec(s, Times(b, 0)) == s;
    TimesNext(s, b, 0);
    TimesNext(s, b, 1);
    TimesNext(s, b, 2);
    TimesNext(s, b, 3);
    hide Exec, Times;
    var s1, s2, s3 := Exec(s, Times(b, 1)), Exec(s, Times(b, 2)), Exec(s, Times(b, 3));
    CopiesWord(s, w);
    var g1: seq<int> :| |g1| == 1 && s1 == SetW(s, w, Copy(n, g1));
    CopiesWord(s1, w);
    var g2: seq<int> :| |g2| == 2 && s2 == SetW(s1, w, Copy(n, g2));
    SetTwiceW(s, w, Copy(n, g1), Copy(n, g2));
    CopiesWord(s2, w);
    var g3: seq<int> :| |g3| == 3 && s3 == SetW(s2, w, Copy(n, g3));
    SetTwiceW(s, w, Copy(n, g2), Copy(n, g3));
    SetTwiceW(s, w, Copy(n, g3), MarkReleased(n, g3));
    got := g3;
  }

  /** Its mark is the one the release head waits for, and it advances the head. */
  lemma ReleasesOwn(s: State, w: nat)
    requires Shaped(s) && w < |s.workers| && s.workers[w].MarkReleased? && s.workers[w].n == s.release
    ensures var r := Exec(s, Times(ByWorker(w), 4));
            && r.release == s.release + 1 && r.producers == s.producers && r.size == s.size
            && r.reserve == s.reserve && r.commit == s.commit && r.request == s.request
  {
    var b, n, got := ByWorker(w), s.release, s.workers[w].got;
    assert Exec(s, Times(b, 0)) == s;
    TimesNext(s, b, 0);
    TimesNext(s, b, 1);
    TimesNext(s, b, 2);
    TimesNext(s, b, 3);
    hide Exec;
    var s1 := Exec(s, Times(b, 1));
    assert s1.workers[w] == ReleaseRead(n, got) && At(s1, n).mark == Released(n) && s1.release == n;
    var s2 := Exec(s, Times(b, 2));
    assert s2.workers[w] == ReleaseCheck(n, got, n) && s2.slots == s1.slots && s2.release == n;
    var s3 := Exec(s, Times(b, 3));
    assert s3.workers[w] == ReleaseCas(n, got, n) && s3.release == n;
  }

  /** Twelve steps of a worker: claim, copy, mark, and release. */
  lemma ClaimsAndReleases(s: State, w: nat)
    requires Shaped(s) && w < |s.workers| && s.workers[w].Waiting? && s.release == s.request < s.commit
    ensures var r := Exec(s, Times(ByWorker(w), 12));
            && r.release == r.request == s.release + 1 && r.producers == s.producers && r.size == s.size
            && r.reserve == s.reserve && r.commit == s.commit
  {
    hide Exec, Step, Times;
    var b := ByWorker(w);
    Splits(s, b, 4, 8);
    ClaimsNext(s, w);
    var s4 := Exec(s, Times(b, 4));
    Splits(s4, b, 4, 4);
    var got := CopiesTask(s4, w);
    ReleasesOwn(Exec(s4, Times(b, 4)), w);
  }

  // ---------------------------------------------------------------------------
  // The other read order fails

  /** k whole calls of one producer. */
  function Calls(a: Actor, k: nat): seq<Actor> {
    if k == 0 then [] else Calls(a, k - 1) + Times(a, 14)
  }

  lemma {:induction false} CallsBy(a: Actor, k: nat, i: nat)
    requires i < |Calls(a, k)|
    ensures Calls(a, k)[i] == a
  {
    if i < |Calls(a, k - 1)| { CallsBy(a, k - 1, i); }
  }

  /** k tasks are committed, nothing has been claimed, and every thread is idle. */
  ghost predicate Stocked(s: State, size: nat, k: nat) {
    && Shaped(s) && s.size == size && s.reserve == s.commit == k && s.request == s.release == 0
    && s.producers == [Outside, Outside] && s.workers == [Waiting]
    && forall i | k <= i < size :: s.slots[i].mark == Released(0)
  }

  lemma {:induction false} StocksUp(size: nat, task: Task, k: nat)
    requires size >= 4 && k <= size - 3
    ensures Stocked(Exec(Init(size, 2, 1), Calls(ByProducer(1, task), k)), size, k)
  {
    hide Step;
    if k > 0 {
      var a, before := ByProducer(1, task), Calls(ByProducer(1, task), k - 1);
      StocksUp(size, task, k - 1);
      ExecAppend(Init(size, 2, 1), before, Times(a, 14));
      hide Exec, Times;
      StocksOne(Exec(Init(size, 2, 1), before), size, task, k - 1);
    }
  }

  lemma StocksOne(s: State, size: nat, task: Task, k: nat)
    requires Stocked(s, size, k) && k + 3 < size
    ensures Stocked(Exec(s, Times(ByProducer(1, task), 14)), size, k + 1)
  {
    hide Exec, Times, Step;
    ModUnique(k, 0, k, size);
    ModUnique(k + 1, 0, k + 1, size);
    SchedulesAlone(s, 1, task);
  }

  /** No worker reads the commit head before step i, and something is committed by then. */
  lemma LateSchedule(size: nat, producers: nat, workers: nat, schedule: seq<Actor>, i: nat)
    requires size >= 2 && i <= |schedule| && After(Init(size, producers, workers), schedule, i).commit > 0
    requires forall k | 0 <= k < i :: schedule[k].ByProducer?
    ensures NeverPremature(Init(size, producers, workers), schedule)
  {
    var s := Init(size, producers, workers);
    forall k | 0 <= k < |schedule| ensures !ReadsEarly(After(s, schedule, k), schedule[k]) {
      if k >= i { HeadsGrowOver(s, schedule, i, k); }
    }
    LateWorkersNeverPremature(size, producers, workers, schedule);
  }

  /** Line 119, release head first: with the ring one short of full, producer 0 reserves and reads
      the release head; a worker releases one task, producer 1 reserves once more, and only then
      producer 0 reads the reserve head. The difference is the queue size and the assertion
      fails, in a ring of any size. */
  lemma ReleaseReadFirstExample(size: nat, task: Task)
    requires size >= 4
    ensures var s := Init(size, 2, 1);
            var first := Calls(ByProducer(1, task), size - 3) + Times(ByProducer(0, task), 4);
            var schedule := first + Times(ByWorker(0), 12) + Times(ByProducer(1, task), 4);
            var a, b := Exec(s, first), Exec(s, schedule);
            && NeverPremature(s, schedule) && |a.producers| == 2 == |b.producers|
            && a.producers[0] == b.producers[0] == Fill(task, size - 3, 0) && b.reserve - a.release == size - 1
  {
    hide Step, Times;
    var s, stock := Init(size, 2, 1), Calls(ByProducer(1, task), size - 3);
    var stall, work, call := Times(ByProducer(0, task), 4), Times(ByWorker(0), 12), Times(ByProducer(1, task), 4);
    StocksUp(size, task, size - 3);
    ExecAppend(s, stock, stall);
    ExecAppend(s, stock + stall, work);
    ExecAppend(s, stock + stall + work, call);
    hide Exec;
    ReservesNext(Exec(s, stock), 0, task);
    var a := Exec(s, stock + stall);
    ClaimsAndReleases(a, 0);
    var c := Exec(s, stock + stall + work);
    ReservesNext(c, 1, task);
    var schedule := stock + stall + work + call;
    assert schedule[..|stock|] == stock;
    forall k | 0 <= k < |stock| ensures schedule[k].ByProducer? { CallsBy(ByProducer(1, task), size - 3, k); }
    LateSchedule(size, 2, 1, schedule, |stock|);
  }

  /** Line 142, commit head first: producer 0 has advanced the commit head and reads it; producer 1
      commits one more task, two workers claim both, and only then producer 0 reads the request
      head, which has passed the value it holds. */
  lemma CommitReadFirstExample(size: nat, task: Task)
    requires size >= 4
    ensures var s := Init(size, 2, 2);
            var first := Times(ByProducer(0, task), 12);
            var schedule := first + Times(ByProducer(1, task), 14) + Times(ByWorker(0), 4) + Times(ByWorker(1), 4);
            var a, b := Exec(s, first), Exec(s, schedule);
            && NeverPremature(s, schedule) && |a.producers| == 2 == |b.producers|
            && a.producers[0] == b.producers[0] == CommitRead && a.commit == 1 && b.request == 2
  {
    hide Step;
    var s, first := Init(size, 2, 2), Times(ByProducer(0, task), 12);
    var call, work0, work1 := Times(ByProducer(1, task), 14), Times(ByWorker(0), 4), Times(ByWorker(1), 4);
    var schedule := first + call + work0 + work1;
    assert schedule[..|first|] == first && forall k | 0 <= k < |first| :: schedule[k].ByProducer?;
    ExecAppend(s, first, call);
    ExecAppend(s, first + call, work0);
    ExecAppend(s, first + call + work0, work1);
    hide Exec, Times;
    SchedulesNext(s, 0, task);
    var a := Exec(s, first);
    ModUnique(2, 0, 2, size);
    ModUnique(0, 0, 0, size);
    SchedulesAlone(a, 1, task);
    var c := Exec(s, first + call);
    ClaimsNext(c, 0);
    ClaimsNext(Exec(s, first + call + work0), 1);
    LateSchedule(size, 2, 2, schedule, |first|);
  }
}
