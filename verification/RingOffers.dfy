/** What becomes of the tasks offered to the ring (src/lib/threadpool/threadpool.c:97-131): a call of
    Threadpool_Schedule that loses a race tries again, and gives up only on reading a full ring. */
module RingOffers {
  import opened ThreadpoolRing

  /** Where the producer stands, if there is one. */
  function PcOf(s: State, p: nat): Producer { if p < |s.producers| then s.producers[p] else Outside }

  /** The tasks that producer p has been called with, in order. */
  function Offered(s: State, schedule: seq<Actor>, p: nat): seq<Task>
    requires Shaped(s)
  {
    if schedule == [] then []
    else
      var before, a := schedule[..|schedule| - 1], schedule[|schedule| - 1];
      Offered(s, before, p) +
      if a.ByProducer? && a.p == p && p < |Exec(s, before).producers| && PcOf(Exec(s, before), p).Outside? then [a.task]
      else []
  }

  /** The tasks that producer p had to give up on: it was about to test two heads that, as it
      reads them, leave no room. */
  function Refused(s: State, schedule: seq<Actor>, p: nat): seq<Task>
    requires Shaped(s)
  {
    if schedule == [] then []
    else
      var before, a := schedule[..|schedule| - 1], schedule[|schedule| - 1];
      var t := Exec(s, before);
      Refused(s, before, p) +
      if a.ByProducer? && a.p == p && ReadsFull(t, PcOf(t, p)) then [PcOf(t, p).task] else []
  }

  /** The reserve head read before and the release head now differ by the queue size or more, or
      the difference wraps. */
  predicate ReadsFull(s: State, pc: Producer) {
    pc.ReadRelease? && (pc.wh < s.release || pc.wh - s.release >= s.size - 2)
  }

  /** The tasks at the indices that producer p has reserved. */
  function Reserved(tasks: seq<Task>, reservedBy: seq<nat>, p: nat): seq<Task>
    requires |tasks| == |reservedBy|
  {
    if tasks == [] then []
    else
      var n := |tasks| - 1;
      Reserved(tasks[..n], reservedBy[..n], p) + if reservedBy[n] == p then [tasks[n]] else []
  }

  /** The task of a call that has neither reserved an index nor given up yet. */
  function Pending(pc: Producer): seq<Task> {
    match pc
    case ReadReserve(t) => [t]
    case ReadRelease(t, _) => [t]
    case Reserve(t, _, _) => [t]
    case _ => []
  }

  /** How often a task occurs. */
  function Count(ts: seq<Task>, t: Task): nat {
    if ts == [] then 0 else Count(ts[..|ts| - 1], t) + if ts[|ts| - 1] == t then 1 else 0
  }

  lemma CountSnoc(ts: seq<Task>, x: Task, t: Task)
    ensures Count(ts + [x], t) == Count(ts, t) + if x == t then 1 else 0
    ensures Count([x], t) == if x == t then 1 else 0
    ensures ts + [] == ts
  {
    assert (ts + [x])[..|ts|] == ts && [x][..0] == [];
  }

  lemma ReservedSnoc(tasks: seq<Task>, reservedBy: seq<nat>, p: nat, x: Task, q: nat, t: Task)
    requires |tasks| == |reservedBy|
    ensures Count(Reserved(tasks + [x], reservedBy + [q], p), t) ==
              Count(Reserved(tasks, reservedBy, p), t) + if q == p && x == t then 1 else 0
  {
    assert (tasks + [x])[..|tasks|] == tasks && (reservedBy + [q])[..|tasks|] == reservedBy;
    CountSnoc(Reserved(tasks, reservedBy, p), x, t);
  }

  /** A step of another thread leaves producer p's account alone. */
  lemma OtherAccounts(s: State, a: Actor, p: nat, t: Task)
    requires Shaped(s) && |s.tasks| == |s.reservedBy| && !(a.ByProducer? && a.p == p)
    ensures var r := Step(s, a);
            && |r.tasks| == |r.reservedBy| && PcOf(r, p) == PcOf(s, p)
            && Count(Reserved(r.tasks, r.reservedBy, p), t) == Count(Reserved(s.tasks, s.reservedBy, p), t)
  {
    var r := Step(s, a);
    if r.tasks != s.tasks { ReservedSnoc(s.tasks, s.reservedBy, p, s.producers[a.p].task, a.p, t); }
    hide Reserved, Count;
  }

  /** Its own step: called, refused, reserved, or still at it. */
  lemma OwnStep(s: State, p: nat, task: Task)
    requires Shaped(s) && p < |s.producers|
    ensures var r, pc := Step(s, ByProducer(p, task)), s.producers[p];
            var same, left := r.tasks == s.tasks && r.reservedBy == s.reservedBy, Pending(PcOf(r, p));
            if pc.Outside? then same && left == [task]
            else if Pending(pc) == [] || ReadsFull(s, pc) then same && left == []
            else
              || (same && left == Pending(pc))
              || (r.tasks == s.tasks + Pending(pc) && r.reservedBy == s.reservedBy + [p] && left == [])
  {
  }

  lemma OwnAccounts(s: State, p: nat, task: Task, t: Task)
    requires Shaped(s) && |s.tasks| == |s.reservedBy| && p < |s.producers|
    ensures var r, pc := Step(s, ByProducer(p, task)), s.producers[p];
            && |r.tasks| == |r.reservedBy|
            && Count(Reserved(s.tasks, s.reservedBy, p), t) + Count(Pending(pc), t)
               + (if pc.Outside? && task == t then 1 else 0) ==
                 Count(Reserved(r.tasks, r.reservedBy, p), t) + Count(Pending(PcOf(r, p)), t)
                 + (if ReadsFull(s, pc) && pc.task == t then 1 else 0)
  {
    var pc := s.producers[p];
    OwnStep(s, p, task);
    CountSnoc([], task, t);
    PendingOne(s, pc);
    assert Count([], t) == 0;
    if Pending(pc) != [] {
      CountSnoc([], Pending(pc)[0], t);
      ReservedSnoc(s.tasks, s.reservedBy, p, Pending(pc)[0], p, t);
    }
    hide Step, Reserved, Count, Pending, ReadsFull;
  }

  lemma PendingOne(s: State, pc: Producer)
    ensures Pending(pc) != [] ==> Pending(pc) == [Pending(pc)[0]] && !pc.Outside?
    ensures ReadsFull(s, pc) ==> Pending(pc) == [pc.task]
    ensures pc.Outside? ==> Pending(pc) == []
  {
  }

  /** The account: every task offered by p is reserved, refused, or pending. */
  ghost predicate Balanced(s0: State, schedule: seq<Actor>, p: nat, t: Task)
    requires Shaped(s0)
  {
    var s := Exec(s0, schedule);
    && |s.tasks| == |s.reservedBy|
    && Count(Offered(s0, schedule, p), t) ==
         Count(Reserved(s.tasks, s.reservedBy, p), t) + Count(Refused(s0, schedule, p), t)
         + Count(Pending(PcOf(s, p)), t)
  }

  lemma {:induction false} StaysBalanced(s0: State, schedule: seq<Actor>, p: nat, t: Task)
    requires Shaped(s0) && s0.tasks == [] && s0.reservedBy == [] && Pending(PcOf(s0, p)) == []
    ensures Balanced(s0, schedule, p, t)
  {
    if schedule != [] {
      var before, a := schedule[..|schedule| - 1], schedule[|schedule| - 1];
      StaysBalanced(s0, before, p, t);
      assert schedule == before + [a];
      hide Balanced;
      if a.ByProducer? && a.p == p && p < |Exec(s0, before).producers| {
        OwnStepBalances(s0, before, a, p, t);
      } else {
        OtherStepBalances(s0, before, a, p, t);
      }
    }
  }

  lemma OtherStepBalances(s0: State, before: seq<Actor>, a: Actor, p: nat, t: Task)
    requires Shaped(s0) && Balanced(s0, before, p, t)
    requires !(a.ByProducer? && a.p == p && p < |Exec(s0, before).producers|)
    ensures Balanced(s0, before + [a], p, t)
  {
    var s := Exec(s0, before);
    assert (before + [a])[..|before|] == before;
    assert Offered(s0, before + [a], p) == Offered(s0, before, p);
    assert Refused(s0, before + [a], p) == Refused(s0, before, p);
    hide Step, ReadsFull, Reserved, Count, Pending;
    if a.ByProducer? && a.p == p { NoSuchProducer(s, a); } else { OtherAccounts(s, a, p, t); }
  }

  lemma OwnStepBalances(s0: State, before: seq<Actor>, a: Actor, p: nat, t: Task)
    requires Shaped(s0) && Balanced(s0, before, p, t) && a.ByProducer? && a.p == p && p < |Exec(s0, before).producers|
    ensures Balanced(s0, before + [a], p, t)
  {
    hide Step, Pending;
    var s, all := Exec(s0, before), before + [a];
    assert all[..|before|] == before;
    CountSnoc(Offered(s0, before, p), a.task, t);
    assert !s.producers[p].Outside? ==> Offered(s0, all, p) == Offered(s0, before, p);
    if ReadsFull(s, s.producers[p]) { CountSnoc(Refused(s0, before, p), s.producers[p].task, t); }
    else { assert Refused(s0, all, p) == Refused(s0, before, p); }
    OwnAccounts(s, p, a.task, t);
    hide Reserved, Count, ReadsFull;
  }

  lemma NoSuchProducer(s: State, a: Actor)
    requires Shaped(s) && a.ByProducer? && a.p >= |s.producers|
    ensures Step(s, a) == s && !ReadsFull(s, PcOf(s, a.p))
  {
  }

  /** In every run of any number of threads: as often as a producer was called with a task, as often
      is it at an index that producer reserved, given up on at a full reading, or still being
      offered. None is lost and none is taken twice. */
  lemma EveryOfferAccountedFor(size: nat, producers: nat, workers: nat, schedule: seq<Actor>, p: nat)
    requires size >= 2
    ensures forall t :: Balanced(Init(size, producers, workers), schedule, p, t)
  {
    forall t ensures Balanced(Init(size, producers, workers), schedule, p, t) {
      StaysBalanced(Init(size, producers, workers), schedule, p, t);
    }
  }

  /** A worker that loses a race tries again: it rests only on reading that every committed index is
      taken, or when its task is done. */
  lemma WorkerRestsIff(s: State, w: nat)
    requires Shaped(s) && w < |s.workers| && !s.workers[w].Waiting?
    ensures Step(s, ByWorker(w)).workers[w].Waiting? <==>
            || (s.workers[w].ReadRequest? && 0 < s.workers[w].ch <= s.request)
            || s.workers[w].Run?
  {
  }

  /** It leaves the release loop only at a head that is not marked released. */
  lemma ReleaseEndsIff(s: State, w: nat)
    requires Shaped(s) && w < |s.workers| && !s.workers[w].Run?
    ensures Step(s, ByWorker(w)).workers[w].Run? <==>
            s.workers[w].ReleaseCheck? && At(s, s.workers[w].relh).mark != Released(s.workers[w].relh)
  {
  }

  /** A call ends only by giving up at a full reading, or after its index is reserved and its slot
      marked. */
  lemma CallEndsIff(s: State, p: nat, task: Task)
    requires Shaped(s) && p < |s.producers| && !s.producers[p].Outside?
    ensures Step(s, ByProducer(p, task)).producers[p].Outside? <==>
            || ReadsFull(s, s.producers[p])
            || (s.producers[p].CommitCheck? && At(s, s.producers[p].ch).mark != Committed(s.producers[p].ch))
  {
  }
}
