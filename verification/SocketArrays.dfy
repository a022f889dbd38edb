/** The listener's tracked sockets: two parallel arrays kept as an active prefix and an
    inactive suffix (src/lib/bus/listener_cmd.c:145-254, src/lib/bus/listener_io.c:304-330). */
module SocketArrays {

  const MAX_FDS := 1000

  /** struct pollfd: the descriptor and whether POLLIN is set in `events`. */
  datatype PollFd = PollFd(fd: int, pollin: bool)

  /** connection_info: the descriptor and whether an error (< 0) is recorded. */
  datatype Conn = Conn(fd: int, error: bool)

  /** fds[i + 1] and fd_info[i] side by side. */
  datatype Row = Row(pfd: PollFd, ci: Conn)

  /** The tracked part of both arrays, and how many at its end are inactive. */
  datatype Table = Table(rows: seq<Row>, inactive: nat)

  predicate Tracks(t: Table, fd: int) {
    exists i | 0 <= i < |t.rows| :: t.rows[i].pfd.fd == fd
  }

  /** Paired, without repeats, and polled exactly in the prefix. */
  ghost predicate WellFormed(t: Table) {
    && t.inactive <= |t.rows| <= MAX_FDS
    && (forall i | 0 <= i < |t.rows| :: t.rows[i].pfd.fd == t.rows[i].ci.fd)
    && (forall i, j | 0 <= i < j < |t.rows| :: t.rows[i].pfd.fd != t.rows[j].pfd.fd)
    && (forall i | 0 <= i < |t.rows| :: t.rows[i].pfd.pollin <==> i < |t.rows| - t.inactive)
  }

  function Swap<T>(s: seq<T>, a: nat, b: nat): seq<T>
    requires a < |s| && b < |s|
  {
    s[b := s[a]][a := s[b]]
  }

  /** add_socket: append, then swap with the first inactive socket if there is one. */
  function Add(t: Table, ci: Conn): Table
    requires t.inactive <= |t.rows|
  {
    if |t.rows| == MAX_FDS || Tracks(t, ci.fd) then t else Insert(t, ci)
  }

  function Insert(t: Table, ci: Conn): Table
    requires t.inactive <= |t.rows|
  {
    var rows := t.rows + [Row(PollFd(ci.fd, true), ci)];
    t.(rows := if t.inactive > 0 then Swap(rows, |t.rows|, |t.rows| - t.inactive) else rows)
  }

  /** remove_socket once the socket is found at position id: to the end of its part, then to
      the end of the array, then off. */
  function RemoveAt(t: Table, id: nat): Table
    requires t.inactive <= |t.rows| && id < |t.rows| && (t.rows[id].pfd.pollin <==> id < |t.rows| - t.inactive)
  {
    var active, n := t.rows[id].pfd.pollin, |t.rows|;
    var lastActive := n - t.inactive - 1;
    var rows1 := if n > 1 && active && id != lastActive then Swap(t.rows, id, lastActive) else t.rows;
    var id1 := if n > 1 && active && id != lastActive then lastActive else id;
    var rows2 := if id1 < n - 1 then Swap(rows1, id1, n - 1) else rows1;
    Table(rows2[..n - 1], if active then t.inactive else t.inactive - 1)
  }

  /** Clear POLLIN of the active socket at id and swap it with the last active one. */
  function StopPolling(t: Table, id: nat): (u: Table)
    requires id < |t.rows| - t.inactive
    ensures |u.rows| == |t.rows| && u.inactive == t.inactive + 1
    ensures var last := |t.rows| - t.inactive - 1;
            && u.rows[last] == Row(PollFd(t.rows[id].pfd.fd, false), t.rows[id].ci)
            && (id < last ==> u.rows[id] == t.rows[last])
            && forall i | 0 <= i < |t.rows| && i != id && i != last :: u.rows[i] == t.rows[i]
  {
    var last := |t.rows| - t.inactive - 1;
    var off := t.rows[id := Row(PollFd(t.rows[id].pfd.fd, false), t.rows[id].ci)];
    Table(if id != last then Swap(off, id, last) else off, t.inactive + 1)
  }

  /** move_errored_active_sockets_to_end from position id on. The socket swapped into id is
      not looked at again. */
  function MoveErrored(t: Table, id: nat): Table
    requires t.inactive <= |t.rows|
    decreases |t.rows| - t.inactive - id
  {
    if id >= |t.rows| - t.inactive then t
    else if t.rows[id].ci.error && t.rows[id].pfd.pollin then MoveErrored(StopPolling(t, id), id + 1)
    else MoveErrored(t, id + 1)
  }

  // ---------------------------------------------------------------------------
  // What the operations do to the set of tracked sockets

  /** Adding keeps every other socket as it is and adds exactly the named one, active. */
  lemma AddAddsOne(t: Table, ci: Conn)
    requires WellFormed(t)
    ensures WellFormed(Add(t, ci))
    ensures forall r :: r in Add(t, ci).rows <==>
              r in t.rows || (r == Row(PollFd(ci.fd, true), ci) && |t.rows| < MAX_FDS && !Tracks(t, ci.fd))
  {
    var u := Add(t, ci);
    if u != t {
      var added := Row(PollFd(ci.fd, true), ci);
      var n, k := |t.rows|, |t.rows| - t.inactive;
      assert u.rows[k] == added;
      forall r ensures r in u.rows <==> r in t.rows || r == added {
        if r in t.rows {
          var i :| 0 <= i < n && t.rows[i] == r;
          assert u.rows[if i == k then n else i] == r;
        }
      }
    }
  }

  /** Where the row at position i comes from after the socket at id is removed. */
  function Source(t: Table, id: nat, i: nat): nat
    requires WellFormed(t) && id < |t.rows|
  {
    var n, last := |t.rows|, |t.rows| - t.inactive - 1;
    if t.rows[id].pfd.pollin then (if i == last then n - 1 else if i == id then last else i)
    else if i == id then n - 1 else i
  }

  lemma RemoveShape(t: Table, id: nat, i: nat)
    requires WellFormed(t) && id < |t.rows| && i < |t.rows| - 1
    ensures var j := Source(t, id, i);
            |RemoveAt(t, id).rows| == |t.rows| - 1 && j < |t.rows| && j != id && RemoveAt(t, id).rows[i] == t.rows[j]
  {
  }

  lemma RemoveKeepsForm(t: Table, id: nat)
    requires WellFormed(t) && id < |t.rows|
    ensures WellFormed(RemoveAt(t, id)) && |RemoveAt(t, id).rows| == |t.rows| - 1
  {
    var u, n := RemoveAt(t, id), |t.rows|;
    forall i | 0 <= i < n - 1 ensures var j := Source(t, id, i); j < n && j != id && u.rows[i] == t.rows[j] {
      RemoveShape(t, id, i);
    }
  }

  /** Removing drops exactly the named socket and leaves every other as it is. */
  lemma {:induction false} RemoveDropsOne(t: Table, id: nat)
    requires WellFormed(t) && id < |t.rows|
    ensures WellFormed(RemoveAt(t, id))
    ensures forall r :: r in RemoveAt(t, id).rows <==> r in t.rows && r.pfd.fd != t.rows[id].pfd.fd
  {
    var u := RemoveAt(t, id);
    var n := |t.rows|;
    forall i | 0 <= i < n - 1 ensures var j := Source(t, id, i); j < n && j != id && u.rows[i] == t.rows[j] {
      RemoveShape(t, id, i);
    }
    RemoveKeepsForm(t, id);
    hide RemoveAt, WellFormed;
    forall r | r in t.rows && r.pfd.fd != t.rows[id].pfd.fd ensures r in u.rows {
      var j :| 0 <= j < n && t.rows[j] == r;
      var last := n - t.inactive - 1;
      var i := if t.rows[id].pfd.pollin then (if j == n - 1 && last < n - 1 then last else if j == last then id else j)
               else if j == n - 1 then id else j;
      assert Source(t, id, i) == j;
    }
  }

  lemma {:induction false} StopPollingKeepsAll(t: Table, id: nat)
    requires WellFormed(t) && id < |t.rows| - t.inactive && t.rows[id].ci.error
    ensures WellFormed(StopPolling(t, id))
    ensures forall fd :: Tracks(StopPolling(t, id), fd) <==> Tracks(t, fd)
    ensures forall r | r in StopPolling(t, id).rows :: Explained(t, r)
  {
    var u := StopPolling(t, id);
    var last := |t.rows| - t.inactive - 1;
    forall fd | Tracks(t, fd) ensures Tracks(u, fd) {
      var i :| 0 <= i < |t.rows| && t.rows[i].pfd.fd == fd;
      assert u.rows[if i == id then last else if i == last then id else i].pfd.fd == fd;
    }
    forall r | r in u.rows ensures Explained(t, r) {
      var i :| 0 <= i < |u.rows| && u.rows[i] == r;
      assert i == last ==> t.rows[id] == Row(PollFd(r.pfd.fd, true), r.ci);
    }
  }

  /** The row was there before, or it is an errored one that was polled before. */
  predicate Explained(t: Table, r: Row) {
    r in t.rows || (r.ci.error && !r.pfd.pollin && Row(PollFd(r.pfd.fd, true), r.ci) in t.rows)
  }

  /** One pass keeps every socket tracked; it only stops polling some of the errored ones. */
  lemma {:induction false} MoveErroredKeepsAll(t: Table, id: nat)
    requires WellFormed(t)
    ensures WellFormed(MoveErrored(t, id)) && |MoveErrored(t, id).rows| == |t.rows|
    ensures forall fd :: Tracks(MoveErrored(t, id), fd) <==> Tracks(t, fd)
    ensures forall r | r in MoveErrored(t, id).rows :: Explained(t, r)
    decreases |t.rows| - t.inactive - id
  {
    if id < |t.rows| - t.inactive {
      if t.rows[id].ci.error {
        StopPollingKeepsAll(t, id);
        MoveErroredKeepsAll(StopPolling(t, id), id + 1);
        forall r | r in MoveErrored(t, id).rows ensures Explained(t, r) { assert Explained(StopPolling(t, id), r); }
      } else {
        MoveErroredKeepsAll(t, id + 1);
      }
    }
  }

  // ---------------------------------------------------------------------------
  // When one pass stops polling every errored socket

  /** How many of the sockets at positions lo..hi carry an error. */
  function Errors(rows: seq<Row>, lo: nat, hi: nat): nat
    requires hi <= |rows|
  {
    if lo >= hi then 0 else Errors(rows, lo, hi - 1) + if rows[hi - 1].ci.error then 1 else 0
  }

  lemma {:induction false} ErrorsFirst(rows: seq<Row>, lo: nat, hi: nat)
    requires lo < hi <= |rows|
    ensures Errors(rows, lo, hi) == Errors(rows, lo + 1, hi) + if rows[lo].ci.error then 1 else 0
    ensures Errors(rows, lo, hi) <= hi - lo
    decreases hi
  {
    if lo + 1 < hi { ErrorsFirst(rows, lo, hi - 1); }
  }

  lemma {:induction false} ErrorsSame(rows: seq<Row>, other: seq<Row>, lo: nat, hi: nat)
    requires hi <= |rows| && hi <= |other| && forall i | lo <= i < hi :: rows[i].ci.error == other[i].ci.error
    ensures Errors(rows, lo, hi) == Errors(other, lo, hi)
  {
    if lo < hi { ErrorsSame(rows, other, lo, hi - 1); }
  }

  /** No polled socket before position hi carries an error. */
  ghost predicate CleanBefore(t: Table, hi: int)
    requires t.inactive <= |t.rows|
  {
    forall i | 0 <= i < hi && i < |t.rows| - t.inactive :: !t.rows[i].ci.error
  }

  /** Every errored socket from position id on lies at or before the place where the errored
      sockets will be gathered. */
  ghost predicate LeavesRoom(t: Table, id: nat)
    requires t.inactive <= |t.rows|
  {
    var active := |t.rows| - t.inactive;
    forall q | id <= q < active && t.rows[q].ci.error :: q + Errors(t.rows, id, active) <= active
  }

  lemma StopPollingRoom(t: Table, id: nat)
    requires WellFormed(t) && id < |t.rows| - t.inactive && t.rows[id].ci.error
    ensures var u := StopPolling(t, id);
            CleanBefore(t, id) && LeavesRoom(t, id) <==> CleanBefore(u, id + 1) && LeavesRoom(u, id + 1)
  {
    var u, last := StopPolling(t, id), |t.rows| - t.inactive - 1;
    ErrorsFirst(t.rows, id, last + 1);
    if id < last {
      ErrorsSame(t.rows, u.rows, id + 1, last);
      ErrorsFirst(t.rows, id, last);
      if t.rows[last].ci.error {
        assert !LeavesRoom(t, id);
        assert u.rows[id].ci.error;
      } else {
        assert Errors(t.rows, id, last + 1) == Errors(u.rows, id + 1, last) + 1;
        assert CleanBefore(u, id + 1) <==> CleanBefore(t, id);
        assert LeavesRoom(u, id + 1) <==> LeavesRoom(t, id);
      }
    } else {
      assert CleanBefore(u, id + 1) <==> CleanBefore(t, id);
      assert LeavesRoom(t, id) && LeavesRoom(u, id + 1);
    }
  }

  lemma {:induction false} MoveErroredFrom(t: Table, id: nat)
    requires WellFormed(t)
    ensures var u := MoveErrored(t, id);
            u.inactive <= |u.rows| && (CleanBefore(u, |u.rows|) <==> CleanBefore(t, id) && LeavesRoom(t, id))
    decreases |t.rows| - t.inactive - id
  {
    var active := |t.rows| - t.inactive;
    if id < active {
      if t.rows[id].ci.error {
        StopPollingKeepsAll(t, id);
        StopPollingRoom(t, id);
        MoveErroredFrom(StopPolling(t, id), id + 1);
        assert MoveErrored(t, id) == MoveErrored(StopPolling(t, id), id + 1);
        hide StopPolling, MoveErrored, CleanBefore, LeavesRoom;
      } else {
        MoveErroredFrom(t, id + 1);
        ErrorsFirst(t.rows, id, active);
        assert CleanBefore(t, id + 1) <==> CleanBefore(t, id);
        assert LeavesRoom(t, id + 1) <==> LeavesRoom(t, id);
      }
    }
  }

  /** One pass stops polling every errored socket exactly if, with e of them among the first
      m positions, none lies behind position m - e. */
  lemma {:induction false} PassCompleteIff(t: Table)
    requires WellFormed(t)
    ensures var m := |t.rows| - t.inactive; var e := Errors(t.rows, 0, m); var u := MoveErrored(t, 0);
            (forall r | r in u.rows && r.pfd.pollin :: !r.ci.error) <==>
            (forall q | 0 <= q < m && t.rows[q].ci.error :: q <= m - e)
  {
    var u := MoveErrored(t, 0);
    MoveErroredFrom(t, 0);
    MoveErroredKeepsAll(t, 0);
    hide MoveErrored, Errors;
    if CleanBefore(u, |u.rows|) {
      forall r | r in u.rows && r.pfd.pollin ensures !r.ci.error {
        var i :| 0 <= i < |u.rows| && u.rows[i] == r;
      }
    } else {
      var i :| 0 <= i < |u.rows| - u.inactive && u.rows[i].ci.error;
      assert u.rows[i] in u.rows && u.rows[i].pfd.pollin;
    }
  }

  /** Two errored sockets are already too many for one pass if they are all there is. */
  lemma PassIncompleteExample(a: int, b: int)
    requires a != b
    ensures var t := Table([Row(PollFd(a, true), Conn(a, true)), Row(PollFd(b, true), Conn(b, true))], 0);
            WellFormed(t) && Row(PollFd(b, true), Conn(b, true)) in MoveErrored(t, 0).rows
  {
    var t := Table([Row(PollFd(a, true), Conn(a, true)), Row(PollFd(b, true), Conn(b, true))], 0);
    assert MoveErrored(t, 0) == MoveErrored(StopPolling(t, 0), 1) == StopPolling(t, 0);
    assert StopPolling(t, 0).rows[0] == t.rows[1];
  }

  // ---------------------------------------------------------------------------
  // Any sequence of operations

  /** remove_socket, by descriptor; position |t.rows| means not tracked. */
  function Position(t: Table, fd: int): (id: nat)
    ensures id <= |t.rows| && (id < |t.rows| ==> t.rows[id].pfd.fd == fd)
    ensures forall i | 0 <= i < id :: t.rows[i].pfd.fd != fd
  {
    PositionFrom(t, fd, 0)
  }

  function PositionFrom(t: Table, fd: int, from: nat): (id: nat)
    requires from <= |t.rows|
    ensures from <= id <= |t.rows| && (id < |t.rows| ==> t.rows[id].pfd.fd == fd)
    ensures forall i | from <= i < id :: t.rows[i].pfd.fd != fd
    decreases |t.rows| - from
  {
    if from == |t.rows| || t.rows[from].pfd.fd == fd then from else PositionFrom(t, fd, from + 1)
  }

  function Remove(t: Table, fd: int): Table
    requires WellFormed(t)
  {
    var id := Position(t, fd);
    if id == |t.rows| then t else RemoveAt(t, id)
  }

  /** set_error_for_socket records the error at position id. */
  function SetError(t: Table, id: nat): Table {
    if id < |t.rows| then t.(rows := t.rows[id := Row(t.rows[id].pfd, Conn(t.rows[id].ci.fd, true))]) else t
  }

  /** The named row carries the error afterwards, and nothing else changes. */
  lemma SetErrorMarks(t: Table, id: nat)
    requires id < |t.rows|
    ensures var u := SetError(t, id);
            && |u.rows| == |t.rows| && u.inactive == t.inactive
            && u.rows[id].ci.error && u.rows[id].ci.fd == t.rows[id].ci.fd && u.rows[id].pfd == t.rows[id].pfd
            && forall j | 0 <= j < |t.rows| && j != id :: u.rows[j] == t.rows[j]
  {
  }

  datatype Op = AddOp(ci: Conn) | RemoveOp(fd: int) | ErrorOp(id: nat) | MoveOp

  function Apply(t: Table, op: Op): Table
    requires WellFormed(t)
  {
    match op
    case AddOp(ci) => Add(t, ci)
    case RemoveOp(fd) => Remove(t, fd)
    case ErrorOp(id) => SetError(t, id)
    case MoveOp => MoveErrored(t, 0)
  }

  /** Every operation keeps the partition and changes the tracked set by the named socket only. */
  lemma {:induction false} ApplyTracks(t: Table, op: Op)
    requires WellFormed(t)
    ensures WellFormed(Apply(t, op))
    ensures forall fd :: Tracks(Apply(t, op), fd) <==>
              match op
              case AddOp(ci) => Tracks(t, fd) || (fd == ci.fd && |t.rows| < MAX_FDS)
              case RemoveOp(gone) => Tracks(t, fd) && fd != gone
              case _ => Tracks(t, fd)
  {
    var u := Apply(t, op);
    match op
    case AddOp(ci) =>
      AddAddsOne(t, ci);
      SameRows(t, u);
      if u != t { assert Row(PollFd(ci.fd, true), ci) in u.rows; }
    case RemoveOp(gone) =>
      var id := Position(t, gone);
      if id < |t.rows| { RemoveDropsOne(t, id); }
      SameRows(t, u);
    case ErrorOp(id) =>
      forall fd ensures Tracks(u, fd) <==> Tracks(t, fd) {
        if Tracks(t, fd) { var i :| 0 <= i < |t.rows| && t.rows[i].pfd.fd == fd; assert u.rows[i].pfd.fd == fd; }
        if Tracks(u, fd) { var i :| 0 <= i < |u.rows| && u.rows[i].pfd.fd == fd; assert t.rows[i].pfd.fd == fd; }
      }
    case MoveOp => MoveErroredKeepsAll(t, 0);
  }

  /** A descriptor is tracked if some row carries it. */
  lemma SameRows(t: Table, u: Table)
    ensures forall fd :: Tracks(t, fd) <==> exists r :: r in t.rows && r.pfd.fd == fd
    ensures forall fd :: Tracks(u, fd) <==> exists r :: r in u.rows && r.pfd.fd == fd
  {
    forall x, fd | x == t || x == u ensures Tracks(x, fd) <==> exists r :: r in x.rows && r.pfd.fd == fd {
      if Tracks(x, fd) { var i :| 0 <= i < |x.rows| && x.rows[i].pfd.fd == fd; assert x.rows[i] in x.rows; }
    }
  }

  ghost function Run(ops: seq<Op>): (t: Table)
    ensures WellFormed(t)
  {
    if ops == [] then Table([], 0)
    else
      var before := Run(ops[..|ops| - 1]);
      assert WellFormed(Apply(before, ops[|ops| - 1])) by { ApplyTracks(before, ops[|ops| - 1]); }
      Apply(before, ops[|ops| - 1])
  }

  // ---------------------------------------------------------------------------
  // The arrays

  function Zip(p: seq<PollFd>, c: seq<Conn>): (rows: seq<Row>)
    requires |p| == |c|
    ensures |rows| == |p| && forall i | 0 <= i < |p| :: rows[i] == Row(p[i], c[i])
  {
    seq(|p|, i requires 0 <= i < |p| => Row(p[i], c[i]))
  }

  class Sockets {
    const fds: array<PollFd>
    const fdInfo: array<Conn>
    var tracked: nat
    var inactive: nat

    ghost predicate InBounds()
      reads this
    {
      fds.Length == MAX_FDS + 1 && fdInfo.Length == MAX_FDS && inactive <= tracked <= MAX_FDS
    }

    /** The tracked part of both arrays as a table. */
    ghost function View(): (t: Table)
      requires InBounds()
      reads this, fds, fdInfo
      ensures |t.rows| == tracked && t.inactive == inactive
      ensures forall i | 0 <= i < tracked :: t.rows[i] == Row(fds[i + 1], fdInfo[i])
    {
      Table(Zip(fds[1..tracked + 1], fdInfo[..tracked]), inactive)
    }

    ghost predicate Valid()
      reads this, fds, fdInfo
    {
      InBounds() && WellFormed(View())
    }

    /** fds[0] is the command pipe. */
    constructor (pipe: int)
      ensures Valid() && fresh(fds) && fresh(fdInfo) && View() == Table([], 0) && fds[0] == PollFd(pipe, true)
    {
      fds := new PollFd[MAX_FDS + 1](_ => PollFd(pipe, true));
      fdInfo := new Conn[MAX_FDS](_ => Conn(0, false));
      tracked, inactive := 0, 0;
    }

    /** swap, also of a socket just stored behind the tracked part. */
    method SwapAt(a: nat, b: nat)
      requires fds.Length == MAX_FDS + 1 && fdInfo.Length == MAX_FDS && a < MAX_FDS && b < MAX_FDS
      modifies fds, fdInfo
      ensures fds[a + 1] == old(fds[b + 1]) && fds[b + 1] == old(fds[a + 1])
      ensures fdInfo[a] == old(fdInfo[b]) && fdInfo[b] == old(fdInfo[a])
      ensures forall i | 0 <= i < fds.Length && i != a + 1 && i != b + 1 :: fds[i] == old(fds[i])
      ensures forall i | 0 <= i < fdInfo.Length && i != a && i != b :: fdInfo[i] == old(fdInfo[i])
    {
      var aPfd, bPfd, aCi, bCi := fds[a + 1], fds[b + 1], fdInfo[a], fdInfo[b];
      fds[b + 1] := aPfd;
      fds[a + 1] := bPfd;
      fdInfo[a] := bCi;
      fdInfo[b] := aCi;
    }

    method SwapTracked(a: nat, b: nat)
      requires InBounds() && a < tracked && b < tracked
      modifies fds, fdInfo
      ensures View().rows == Swap(old(View()).rows, a, b) && fds[0] == old(fds[0])
    {
      hide View;
      ghost var rows := Swap(View().rows, a, b);
      SwapAt(a, b);
      assert View().rows == rows;
    }

    /** The search loop of add_socket and remove_socket. */
    method Locate(fd: int) returns (id: nat)
      requires Valid()
      ensures id == Position(View(), fd)
    {
      id := 0;
      while id < tracked && fds[id + 1].fd != fd
        invariant 0 <= id <= tracked && forall j | 0 <= j < id :: View().rows[j].pfd.fd != fd
      {
        assert View().rows[id].pfd == fds[id + 1];
        id := id + 1;
      }
      assert id < tracked ==> View().rows[id].pfd == fds[id + 1];
    }

    /** The new socket goes behind the tracked ones, then changes places with the first
        inactive one. */
    method Store(ci: Conn)
      requires InBounds() && tracked < MAX_FDS
      modifies this, fds, fdInfo
      ensures InBounds() && fds[0] == old(fds[0])
      ensures View() == Insert(old(View()), ci)
    {
      hide View;
      ghost var rows := View().rows + [Row(PollFd(ci.fd, true), ci)];
      var id := tracked;
      fdInfo[id] := ci;
      fds[id + 1] := PollFd(ci.fd, true);
      if inactive > 0 { SwapAt(id, tracked - inactive); }
      tracked := tracked + 1;
      assert View().rows == if inactive > 0 then Swap(rows, id, id - inactive) else rows;
    }

    method AddSocket(ci: Conn)
      requires Valid()
      modifies this, fds, fdInfo
      ensures Valid() && View() == Add(old(View()), ci) && fds[0] == old(fds[0])
    {
      ghost var t := View();
      AddAddsOne(t, ci);
      if tracked == MAX_FDS { return; }
      var found := Locate(ci.fd);
      assert found < tracked <==> Tracks(t, ci.fd);
      if found < tracked { return; }
      Store(ci);
    }

    /** The body of remove_socket's loop, for the socket found at position `at`. */
    method RemoveFound(at: nat)
      requires InBounds() && at < tracked && (fds[at + 1].pollin <==> at < tracked - inactive)
      modifies this, fds, fdInfo
      ensures InBounds() && View() == RemoveAt(old(View()), at) && fds[0] == old(fds[0])
    {
      hide View;
      assert View().rows[at].pfd == fds[at + 1];
      var id, active := at, fds[at + 1].pollin;
      if tracked > 1 {
        var lastActive := tracked - inactive - 1;
        if active && id != lastActive {
          SwapTracked(id, lastActive);
          id := lastActive;
        }
        var last := tracked - 1;
        if id < last { SwapTracked(id, last); }
      }
      ghost var rows := View().rows;
      tracked := tracked - 1;
      if !active { inactive := inactive - 1; }
      assert View().rows == rows[..tracked];
    }

    method RemoveSocket(fd: int)
      requires Valid()
      modifies this, fds, fdInfo
      ensures Valid() && View() == Remove(old(View()), fd) && fds[0] == old(fds[0])
    {
      var id := Locate(fd);
      if id < tracked {
        assert View().rows[id].pfd == fds[id + 1];
        RemoveDropsOne(View(), id);
        RemoveFound(id);
      }
    }

    /** set_error_for_socket's last step. */
    method RecordError(id: nat)
      requires Valid() && id < tracked
      modifies fdInfo
      ensures Valid() && View() == SetError(old(View()), id)
      ensures fdInfo[id].error && fdInfo[id].fd == old(fdInfo[id].fd)
      ensures forall j | 0 <= j < fdInfo.Length && j != id :: fdInfo[j] == old(fdInfo[j])
    {
      ghost var t := View();
      ApplyTracks(t, ErrorOp(id));
      fdInfo[id] := Conn(fdInfo[id].fd, true);
      assert View().rows == SetError(t, id).rows;
    }

    /** Take the active socket at id out of polling. */
    method StopPollingAt(id: nat)
      requires Valid() && id < tracked - inactive && fdInfo[id].error
      modifies this, fds, fdInfo
      ensures Valid() && View() == StopPolling(old(View()), id) && fds[0] == old(fds[0])
    {
      hide View;
      ghost var before := View();
      StopPollingKeepsAll(before, id);
      fds[id + 1] := PollFd(fds[id + 1].fd, false);
      var lastActive := tracked - inactive - 1;
      if id != lastActive { SwapAt(id, lastActive); }
      inactive := inactive + 1;
      assert View().rows == StopPolling(before, id).rows;
    }

    method MoveErroredActiveSocketsToEnd()
      requires Valid()
      modifies this, fds, fdInfo
      ensures Valid() && View() == MoveErrored(old(View()), 0) && fds[0] == old(fds[0])
    {
      ghost var t := View();
      var id := 0;
      while id < tracked - inactive
        invariant 0 <= id && Valid() && MoveErrored(View(), id) == MoveErrored(t, 0) && fds[0] == old(fds[0])
      {
        ghost var before := View();
        assert before.rows[id] == Row(fds[id + 1], fdInfo[id]);
        if fdInfo[id].error && fds[id + 1].pollin { StopPollingAt(id); }
        id := id + 1;
      }
    }
  }
}
