/** The listener's own bookkeeping around the rx_info table: the fixed array of entries, the
    freelist, the high-water mark that bounds every scan, and the idle flag
    (src/lib/bus/listener.c, listener_helper.c, listener_cmd.c, listener_io.c, listener_task.c).
    Each method is proved against the entry-by-entry description in RxTable. */
module ListenerTable {
  import opened Wrappers
  import opened RxTable

  const MAX_PENDING_MESSAGES := 1024
  const INFINITE_DELAY := -1
  const LISTENER_TASK_TIMEOUT_DELAY := 100

  /** The boxes a tick hands to the threadpool, for the first n entries in table order. */
  function TickDeliveries(t: seq<RxInfo>, oracle: seq<Oracle>, n: nat): seq<Box>
    requires n <= |t| <= |oracle|
  {
    if n == 0 then []
    else
      var o := OnTick(t[n - 1], oracle[n - 1]);
      TickDeliveries(t, oracle, n - 1) + if o.Deliver? then [o.box] else []
  }

  /** The table after the first n entries have had their tick. */
  function TickTable(t: seq<RxInfo>, oracle: seq<Oracle>, n: nat): (r: seq<RxInfo>)
    requires n <= |t| <= |oracle|
    ensures |r| == |t|
    ensures forall j | 0 <= j < n :: r[j] == Next(t[j], OnTick(t[j], oracle[j]))
    ensures forall j | n <= j < |t| :: r[j] == t[j]
  {
    if n == 0 then t else TickTable(t, oracle, n - 1)[n - 1 := Next(t[n - 1], OnTick(t[n - 1], oracle[n - 1]))]
  }

  ghost predicate AllInactive(t: seq<RxInfo>) {
    forall i | 0 <= i < |t| :: t[i].Inactive?
  }

  lemma {:induction false} NoMoreDeliveries(t: seq<RxInfo>, oracle: seq<Oracle>, i: nat, n: nat)
    requires i <= n <= |t| <= |oracle| && forall j | i <= j < n :: t[j].Inactive?
    ensures TickDeliveries(t, oracle, n) == TickDeliveries(t, oracle, i)
    ensures TickTable(t, oracle, n) == TickTable(t, oracle, i)
    ensures forall j | i <= j < n :: !OnTick(t[j], oracle[j]).Crash?
  {
    if i < n { NoMoreDeliveries(t, oracle, i, n - 1); }
  }

  /** A tick over a table without pending entries leaves it as it is. */
  lemma NothingPending(t: seq<RxInfo>, oracle: seq<Oracle>, n: nat)
    requires n <= |t| <= |oracle| && forall j | n <= j < |t| :: t[j].Inactive?
    ensures AllInactive(t) <==> !exists j | 0 <= j < n :: !t[j].Inactive?
    ensures AllInactive(t) ==> AllInactive(TickTable(t, oracle, n))
  {
    hide TickTable;
  }

  lemma {:induction false} NoRepeatsIsShort(s: seq<nat>, n: nat)
    requires forall i | 0 <= i < |s| :: s[i] < n
    requires forall i, j | 0 <= i < j < |s| :: s[i] != s[j]
    ensures |s| <= n
  {
    if s != [] { assert s[0] < n; }
    if n > 0 {
      if n - 1 in s {
        var k :| 0 <= k < |s| && s[k] == n - 1;
        NoRepeatsIsShort(s[..k] + s[k + 1..], n - 1);
      } else {
        NoRepeatsIsShort(s, n - 1);
      }
    }
  }

  class Listener {
    const rxInfo: array<RxInfo>
    var freelist: seq<nat>
    var inUse: nat
    var maxUsed: nat
    var isIdle: bool

    /** The freelist is exactly the inactive entries not handed out, without repeats; every
        inactive entry is cleared; `maxUsed` is the last active entry, or 0. */
    ghost predicate Linked(out: set<nat>)
      reads this, rxInfo
    {
      && rxInfo.Length == MAX_PENDING_MESSAGES
      && (forall i | 0 <= i < |freelist| ::
            freelist[i] < rxInfo.Length && rxInfo[freelist[i]].Inactive? && freelist[i] !in out)
      && (forall i, j | 0 <= i < j < |freelist| :: freelist[i] != freelist[j])
      && (forall e | 0 <= e < rxInfo.Length && rxInfo[e].Inactive? ::
            rxInfo[e].residue == NoError && (e in out || e in freelist))
      && inUse + |freelist| == rxInfo.Length
    }

    ghost predicate Bounded()
      reads this, rxInfo
    {
      && maxUsed < rxInfo.Length
      && (forall e | maxUsed < e < rxInfo.Length :: rxInfo[e].Inactive?)
      && (maxUsed > 0 ==> !rxInfo[maxUsed].Inactive?)
    }

    ghost predicate Valid()
      reads this, rxInfo
    {
      && Linked({}) && Bounded()
      && (isIdle ==> AllInactive(rxInfo[..]))
    }

    /** Listener_Init builds the freelist from the last entry to the first. */
    constructor ()
      ensures Valid() && AllInactive(rxInfo[..]) && inUse == 0 && fresh(rxInfo)
    {
      var a := new RxInfo[MAX_PENDING_MESSAGES](_ => RELEASED);
      var list: seq<nat> := [];
      var i := MAX_PENDING_MESSAGES;
      while i > 0
        invariant 0 <= i <= a.Length
        invariant |list| == a.Length - i && forall k | 0 <= k < |list| :: list[k] == i + k
      {
        i := i - 1;
        list := [i] + list;
      }
      rxInfo, freelist, inUse, maxUsed, isIdle := a, list, 0, 0, false;
      new;
      forall e | 0 <= e < rxInfo.Length ensures e in freelist { assert freelist[e] == e; }
    }

    /** ListenerHelper_GetFreeRXInfo. */
    method GetFreeRXInfo() returns (r: Option<nat>)
      requires Valid()
      modifies this
      ensures r.None? <==> old(freelist) == []
      ensures r.None? ==> Valid() && freelist == old(freelist) && inUse == old(inUse) && maxUsed == old(maxUsed)
      ensures r.Some? ==> r.value == old(freelist)[0] && freelist == old(freelist)[1..] && Linked({r.value})
      ensures r.Some? ==> maxUsed == if old(maxUsed) < r.value then r.value else old(maxUsed)
      ensures isIdle == old(isIdle)
    {
      if freelist == [] { return None; }
      var head := freelist[0];
      freelist := freelist[1..];
      inUse := inUse + 1;
      if maxUsed < head { maxUsed := head; }
      r := Some(head);
      forall e | 0 <= e < rxInfo.Length && rxInfo[e].Inactive? ensures e == head || e in freelist {
        assert e in old(freelist);
      }
    }

    /** Lower the high-water mark past trailing inactive entries. */
    method LowerMaxUsed()
      requires 0 < maxUsed < rxInfo.Length && forall e | maxUsed < e < rxInfo.Length :: rxInfo[e].Inactive?
      modifies this`maxUsed
      ensures Bounded()
    {
      while rxInfo[maxUsed].Inactive?
        invariant 0 < maxUsed < rxInfo.Length && forall e | maxUsed < e < rxInfo.Length :: rxInfo[e].Inactive?
        decreases maxUsed
      {
        maxUsed := maxUsed - 1;
        if maxUsed == 0 { break; }
      }
    }

    /** ListenerTask_ReleaseRXInfo: clear the entry, push it on the freelist and keep the
        high-water mark tight. */
    method ReleaseRXInfo(id: nat)
      requires Valid() && id < rxInfo.Length && !rxInfo[id].Inactive?
      modifies this, rxInfo
      ensures Valid() && rxInfo[..] == old(rxInfo[..])[id := RELEASED]
      ensures freelist == [id] + old(freelist) && inUse == old(inUse) - 1 && isIdle == old(isIdle)
    {
      assert id !in freelist && rxInfo[..][id] == rxInfo[id];
      NoRepeatsIsShort([id] + freelist, rxInfo.Length);
      rxInfo[id] := RELEASED;
      freelist := [id] + freelist;
      forall e | 0 <= e < rxInfo.Length && rxInfo[e].Inactive? ensures e in freelist {
        if e != id { assert e in old(freelist); }
      }
      if maxUsed == id && id > 0 { LowerMaxUsed(); }
      inUse := inUse - 1;
    }

    /** ListenerHelper_FindInfoBySequenceID scans only up to the high-water mark, and still
        finds the first match of the whole table, or none exactly if there is none. */
    method FindInfoBySequenceID(fd: int, seqId: int) returns (r: Option<nat>)
      requires Valid()
      ensures r == Find(rxInfo[..], fd, seqId)
      ensures r.Some? ==> r.value <= maxUsed
    {
      var i := 0;
      while i <= maxUsed
        invariant 0 <= i <= maxUsed + 1
        invariant forall j | 0 <= j < i :: !Matches(rxInfo[j], fd, seqId)
      {
        if Matches(rxInfo[i], fd, seqId) {
          assert rxInfo[..][i] == rxInfo[i];
          return Some(i);
        }
        i := i + 1;
      }
      r := None;
      forall j | 0 <= j < |rxInfo[..]| ensures !Matches(rxInfo[..][j], fd, seqId) {}
    }

    /** MSG_HOLD_RESPONSE: an entry off the freelist holds the request, or it is dropped. */
    method HoldResponse(fd: int, seqId: int, timeout: int) returns (slot: Option<nat>)
      requires Valid()
      modifies this, rxInfo
      ensures Valid() && !isIdle
      ensures slot.None? <==> forall e | 0 <= e < rxInfo.Length :: !old(rxInfo[e]).Inactive?
      ensures slot.None? ==> rxInfo[..] == old(rxInfo[..])
      ensures slot.Some? ==> slot.value < rxInfo.Length && old(rxInfo[..])[slot.value].Inactive?
                             && rxInfo[..] ==
                                  old(rxInfo[..])[slot.value := OnHold(old(rxInfo[..])[slot.value], fd, seqId, timeout)]
    {
      isIdle := false;
      slot := GetFreeRXInfo();
      if slot.Some? { rxInfo[slot.value] := OnHold(rxInfo[slot.value], fd, seqId, timeout); }
    }

    /** Store what a handler decided about entry id. */
    method Settle(id: nat, o: Outcome)
      requires Valid() && id < rxInfo.Length && !rxInfo[id].Inactive?
      requires o.Keep? ==> !o.entry.Inactive?
      modifies this, rxInfo
      ensures Valid() && isIdle == old(isIdle)
      ensures rxInfo[..] == old(rxInfo[..])[id := Next(old(rxInfo[..])[id], o)]
    {
      match o
      case Keep(e) => rxInfo[id] := e;
      case Crash =>
      case _ => ReleaseRXInfo(id);
    }

    /** MSG_EXPECT_RESPONSE: `out` is what became of the HOLD found for the box, None if there
        was none and the box is dropped; a second EXPECT is an assertion failure. */
    method ExpectResponse(box: Box, accept: bool) returns (out: Option<Outcome>)
      requires Valid()
      modifies this, rxInfo
      ensures Valid() && !isIdle
      ensures match Find(old(rxInfo[..]), box.fd, box.seqId)
              case None => out.None? && rxInfo[..] == old(rxInfo[..])
              case Some(j) =>
                var e := old(rxInfo[..])[j];
                && out == Some(if e.Hold? then OnExpect(e, box, accept) else Crash)
                && rxInfo[..] == old(rxInfo[..])[j := Next(e, out.value)]
    {
      isIdle := false;
      var found := FindInfoBySequenceID(box.fd, box.seqId);
      if found.None? { return None; }
      var e := rxInfo[found.value];
      if e.Hold? {
        out := Some(OnExpect(e, box, accept));
        Settle(found.value, out.value);
      } else {
        out := Some(Crash);
      }
    }

    /** process_unpacked_message for a response that unpacked well. */
    method ProcessUnpackedMessage(msg: Msg, accept: bool) returns (out: Option<Outcome>)
      requires Valid()
      modifies this, rxInfo
      ensures Valid() && isIdle == old(isIdle)
      ensures match Find(old(rxInfo[..]), msg.fd, msg.seqId)
              case None => out.None? && rxInfo[..] == old(rxInfo[..])
              case Some(j) =>
                && out == Some(OnResponse(old(rxInfo[..])[j], msg, accept))
                && rxInfo[..] == old(rxInfo[..])[j := Next(old(rxInfo[..])[j], out.value)]
    {
      var found := FindInfoBySequenceID(msg.fd, msg.seqId);
      if found.None? { return None; }
      out := Some(OnResponse(rxInfo[found.value], msg, accept));
      Settle(found.value, out.value);
    }

    /** set_error_for_socket marks up to the high-water mark, which marks the whole table. */
    method SetErrorForSocket(fd: int, err: RxError)
      requires Valid()
      modifies rxInfo
      ensures Valid() && rxInfo[..] == ErrorTable(old(rxInfo[..]), fd, err)
    {
      var i := 0;
      while i <= maxUsed
        invariant 0 <= i <= maxUsed + 1
        invariant forall j | 0 <= j < i :: rxInfo[j] == OnError(old(rxInfo[j]), fd, err)
        invariant forall j | i <= j < rxInfo.Length :: rxInfo[j] == old(rxInfo[j])
      {
        rxInfo[i] := OnError(rxInfo[i], fd, err);
        i := i + 1;
      }
    }

    /** One iteration of tick_handler's loop. */
    method TickEntry(i: nat, o: Oracle) returns (out: Outcome)
      requires Valid() && i < rxInfo.Length
      modifies this, rxInfo
      ensures Valid() && isIdle == old(isIdle) && out == OnTick(old(rxInfo[..])[i], o)
      ensures rxInfo[..] == old(rxInfo[..])[i := Next(old(rxInfo[..])[i], out)]
    {
      out := OnTick(rxInfo[i], o);
      if !rxInfo[i].Inactive? { Settle(i, out); }
    }

    /** All that a scan needs to know. */
    lemma ValidBounds()
      requires Valid()
      ensures maxUsed < rxInfo.Length && forall e | maxUsed < e < rxInfo.Length :: rxInfo[e].Inactive?
    {
    }

    /** tick_handler's loop. Its bound may sink while it runs; `n` entries had their tick when
        it ends, and the others have nothing pending. A failed assertion ends it. */
    method TickEntries(oracle: seq<Oracle>) returns (delivered: seq<Box>, crashed: bool, anyWork: bool, n: nat)
      requires Valid() && |oracle| == rxInfo.Length
      modifies this, rxInfo
      ensures Valid() && isIdle == old(isIdle) && n <= rxInfo.Length
      ensures crashed ==> n < rxInfo.Length && OnTick(old(rxInfo[..])[n], oracle[n]).Crash?
      ensures !crashed ==> rxInfo[..] == TickTable(old(rxInfo[..]), oracle, n)
      ensures !crashed ==> delivered == TickDeliveries(old(rxInfo[..]), oracle, n)
      ensures forall j | 0 <= j < n :: !OnTick(old(rxInfo[..])[j], oracle[j]).Crash?
      ensures !crashed ==> forall j | n <= j < rxInfo.Length :: old(rxInfo[..])[j].Inactive?
      ensures !crashed ==> (anyWork <==> exists j | 0 <= j < n :: !old(rxInfo[..])[j].Inactive?)
    {
      hide Valid;
      ghost var t0 := rxInfo[..];
      delivered, crashed, anyWork, n := [], false, false, 0;
      while n <= maxUsed
        invariant 0 <= n <= rxInfo.Length && Valid() && isIdle == old(isIdle)
        invariant rxInfo[..] == TickTable(t0, oracle, n)
        invariant delivered == TickDeliveries(t0, oracle, n)
        invariant forall j | 0 <= j < n :: !OnTick(t0[j], oracle[j]).Crash?
        invariant anyWork <==> exists j | 0 <= j < n :: !t0[j].Inactive?
        decreases rxInfo.Length - n
      {
        ValidBounds();
        assert rxInfo[..][n] == t0[n];
        anyWork := anyWork || !rxInfo[n].Inactive?;
        var o := TickEntry(n, oracle[n]);
        if o.Crash? { crashed := true; return; }
        if o.Deliver? { delivered := delivered + [o.box]; }
        n := n + 1;
      }
      ValidBounds();
      assert forall j | n <= j < |t0| :: t0[j] == rxInfo[..][j] && rxInfo[j].Inactive?;
    }

    /** tick_handler: every entry gets its tick, the deliveries come in table order, and the
        listener goes idle exactly if it already was or nothing was pending; unless some
        entry's tick violates an assertion. */
    method Tick(oracle: seq<Oracle>) returns (delivered: seq<Box>, crashed: bool)
      requires Valid() && |oracle| == rxInfo.Length
      modifies this, rxInfo
      ensures Valid()
      ensures crashed <==> exists i | 0 <= i < rxInfo.Length :: OnTick(old(rxInfo[..])[i], oracle[i]).Crash?
      ensures !crashed ==> rxInfo[..] == TickTable(old(rxInfo[..]), oracle, rxInfo.Length)
      ensures !crashed ==> delivered == TickDeliveries(old(rxInfo[..]), oracle, rxInfo.Length)
      ensures !crashed ==> isIdle == (old(isIdle) || AllInactive(old(rxInfo[..])))
    {
      hide OnTick, TickTable, TickDeliveries, Valid, AllInactive;
      ghost var t0 := rxInfo[..];
      var anyWork, n;
      delivered, crashed, anyWork, n := TickEntries(oracle);
      if crashed { return; }
      NoMoreDeliveries(t0, oracle, n, rxInfo.Length);
      NothingPending(t0, oracle, n);
      if !anyWork { GoIdle(); }
    }

    method GoIdle()
      requires Valid() && AllInactive(rxInfo[..])
      modifies this`isIdle
      ensures Valid() && isIdle
    {
      isIdle := true;
    }

    /** How long the main loop may block in poll: forever exactly when it is idle, and so only when
        nothing is pending. */
    method PollDelay() returns (delay: int)
      requires Valid()
      ensures delay == INFINITE_DELAY || delay == LISTENER_TASK_TIMEOUT_DELAY
      ensures delay == INFINITE_DELAY <==> isIdle
      ensures delay == INFINITE_DELAY ==> AllInactive(rxInfo[..])
    {
      delay := if isIdle then INFINITE_DELAY else LISTENER_TASK_TIMEOUT_DELAY;
    }
  }
}

/** A whole tick of the listener is a run of the protocol's single-entry ticks. */
module ListenerInBus {
  import opened RxTable
  import opened BusProtocol
  import opened ListenerTable

  function TickMoves(oracle: seq<Oracle>, n: nat): seq<Move>
    requires n <= |oracle|
  {
    if n == 0 then [] else TickMoves(oracle, n - 1) + [TickEntry(n - 1, oracle[n - 1])]
  }

  lemma OneTick(t: System, j: nat, o: Oracle)
    requires !t.crashed && j < |t.table| && !OnTick(t.table[j], o).Crash?
    ensures var out, u := OnTick(t.table[j], o), Do(t, TickEntry(j, o));
            && !u.crashed && u.table == t.table[j := Next(t.table[j], out)]
            && u.pool == t.pool + (if out.Deliver? then [out.box] else [])
            && u.senders == t.senders && u.queue == t.queue
  {
  }

  lemma {:induction false} TickIsEntryTicks(s: System, oracle: seq<Oracle>, n: nat)
    requires n <= |s.table| <= |oracle| && !s.crashed
    requires forall j | 0 <= j < n :: !OnTick(s.table[j], oracle[j]).Crash?
    ensures var t := Exec(s, TickMoves(oracle, n));
            && !t.crashed && t.table == TickTable(s.table, oracle, n)
            && t.pool == s.pool + TickDeliveries(s.table, oracle, n)
            && t.senders == s.senders && t.queue == s.queue
  {
    hide Do, OnTick;
    if n > 0 {
      TickIsEntryTicks(s, oracle, n - 1);
      ExecSnoc(s, TickMoves(oracle, n - 1), TickEntry(n - 1, oracle[n - 1]));
      OneTick(Exec(s, TickMoves(oracle, n - 1)), n - 1, oracle[n - 1]);
    }
  }

  lemma ExecSnoc(s: System, moves: seq<Move>, m: Move)
    ensures Exec(s, moves + [m]) == Do(Exec(s, moves), m)
  {
    assert (moves + [m])[..|moves + [m]| - 1] == moves;
  }
}
