/** Every step of the dispatcher keeps the invariant. */
module MasterSteps {
  import opened Base
  import opened Hello
  import opened MasterModel
  import opened MasterInv
  import opened Counting

  // ---------------------------------------------------------------- closing a connection

  lemma CloseTable(m: State, p: nat)
    requires Table(m) && IsBackend(m, p)
    ensures Table(CloseSocket(m, p))
  {
    Occupied(m, p);
    var r := CloseSocket(m, p);
    forall q | r.Fixed() <= q < r.Slots() && r.sockets[q].kind == Unset ensures q in r.free {
      if q == p {
        assert r.free[|m.free|] == p;
      } else {
        assert q in m.free;
      }
    }
  }

  lemma CloseCrew(w: World, p: nat)
    requires w.Shape() && Crew(w) && IsBackend(w.m, p)
    ensures Crew(Close(w, p))
  {
    var r := Close(w, p);
    assert forall q :: IsBackend(r.m, q) ==> IsBackend(w.m, q) && r.m.sockets[q] == w.m.sockets[q];
  }

  lemma CloseParked(w: World, p: nat)
    requires Table(w.m) && Crew(w) && Parked(w) && IsBackend(w.m, p)
    ensures Parked(Close(w, p))
  {
    Occupied(w.m, p);
    SlotsSuffice(w);
    assert Some(w.m.sockets[p].fd) in w.m.handles;
    var r := Close(w, p);
    forall k | 0 <= k < |r.m.idle| ensures Names(r, k) {
      assert Names(w, k);
      if w.m.idle[k] == p {
        Occupied(w.m, p);
      }
    }
  }

  lemma CloseLedger(w: World, p: nat, inHand: seq<int>)
    requires w.Shape() && Ledger(w, inHand) && IsBackend(w.m, p)
    ensures Ledger(Close(w, p), inHand)
  {
    var r := Close(w, p);
    assert forall q :: IsBackend(r.m, q) ==> IsBackend(w.m, q) && r.m.sockets[q] == w.m.sockets[q];
  }

  lemma CloseKeeps(w: World, p: nat, inHand: seq<int>)
    requires InvWith(w, inHand) && IsBackend(w.m, p)
    ensures InvWith(Close(w, p), inHand)
  {
    CloseTable(w.m, p);
    CloseCrew(w, p);
    CloseParked(w, p);
    CloseLedger(w, p, inHand);
  }

  // ---------------------------------------------------------------- a worker connects

  lemma ConnectTable(m: State, p: nat, fd: int, r: State)
    requires Table(m) && m.free != [] && p == m.free[0]
    requires r == m.(free := m.free[1..],
                     sockets := m.sockets[p := m.sockets[p].(kind := Backend, fd := fd, pos := p)],
                     masks := m.masks[p := READING])
    ensures Table(r)
  {
    forall q | r.Fixed() <= q < r.Slots() && r.sockets[q].kind == Unset ensures q in r.free {
      assert q in m.free && q != m.free[0];
    }
  }

  lemma ConnectCrew(w: World, x: int)
    requires Table(w.m) && Crew(w) && w.Shape() && x in w.pending && w.m.free != []
    ensures Crew(OnBackendConnect(w, x))
  {
    var p := w.m.free[0];
    var r := OnBackendConnect(w, x);
    assert forall q :: IsBackend(r.m, q) && q != p ==> IsBackend(w.m, q) && r.m.sockets[q] == w.m.sockets[q];
  }

  lemma ConnectParked(w: World, x: int)
    requires Table(w.m) && Parked(w) && x in w.pending && w.m.free != []
    ensures Parked(OnBackendConnect(w, x))
  {
    var p := w.m.free[0];
    var r := OnBackendConnect(w, x);
    assert |r.pending| == |w.pending| - 1;
    forall k | 0 <= k < |r.m.idle| ensures Names(r, k) {
      assert Names(w, k);
      assert !IsBackend(w.m, p);
      assert w.m.idle[k] != p;
      forall j | 0 <= j < |r.m.free| && j <= |r.pending| ensures !IsBackend(w.m, w.m.idle[k]) ==> r.m.free[j] != w.m.idle[k] {
        assert r.m.free[j] == w.m.free[j + 1];
      }
    }
  }

  lemma ConnectLedger(w: World, x: int, inHand: seq<int>)
    requires Table(w.m) && Parked(w) && Ledger(w, inHand) && x in w.pending && w.m.free != []
    ensures Ledger(OnBackendConnect(w, x), inHand)
  {
    var p := w.m.free[0];
    var r := OnBackendConnect(w, x);
    assert forall q :: IsBackend(r.m, q) && q != p ==> IsBackend(w.m, q) && r.m.sockets[q] == w.m.sockets[q];
    assert !IsBackend(w.m, p);
    assert p !in w.m.idle by {
      forall k | 0 <= k < |w.m.idle| ensures w.m.idle[k] != p {
        assert Names(w, k);
      }
    }
  }

  lemma ConnectKeeps(w: World, x: int)
    requires Inv(w) && x in w.pending
    ensures w.m.free != []
    ensures Inv(OnBackendConnect(w, x))
  {
    SlotsSuffice(w);
    assert Some(x) in w.m.handles;
    CrewSize(w);
    var p := w.m.free[0];
    var r := OnBackendConnect(w, x);
    ConnectTable(w.m, p, x, r.m);
    ConnectCrew(w, x);
    ConnectParked(w, x);
    ConnectLedger(w, x, []);
  }

  // ---------------------------------------------------------------- the idle ring gives up its oldest entry

  lemma PopParked(w: World)
    requires Parked(w) && w.m.idle != []
    ensures Parked(PopIdle(w))
  {
    var r := PopIdle(w);
    forall k | 0 <= k < |r.m.idle| ensures Names(r, k) {
      assert Names(w, k + 1);
      assert IsBackend(r.m, r.m.idle[k]) <==> IsBackend(w.m, r.m.idle[k]);
    }
  }

  lemma PopStaleKeeps(w: World, inHand: seq<int>)
    requires InvWith(w, inHand) && w.m.idle != [] && !IsBackend(w.m, w.m.idle[0])
    ensures InvWith(PopIdle(w), inHand)
  {
    PopParked(w);
    var r := PopIdle(w);
    assert forall q :: IsBackend(r.m, q) <==> IsBackend(w.m, q);
    assert forall q :: IsBackend(r.m, q) ==> (q in r.m.idle <==> q in w.m.idle);
  }

  /** Popping an entry and closing its connection commute. */
  lemma PopCloseKeeps(w: World, inHand: seq<int>)
    requires InvWith(w, inHand) && w.m.idle != [] && IsBackend(w.m, w.m.idle[0])
    ensures InvWith(Close(PopIdle(w), w.m.idle[0]), inHand)
  {
    CloseKeeps(w, w.m.idle[0], inHand);
    var closed := Close(w, w.m.idle[0]);
    PopStaleKeeps(closed, inHand);
    assert PopIdle(closed) == Close(PopIdle(w), w.m.idle[0]);
  }

  lemma AssignParked(w: World, c: int)
    requires Parked(w) && w.m.idle != [] && IsBackend(w.m, w.m.idle[0])
    ensures Parked(Assign(PopIdle(w), w.m.idle[0], c))
  {
    var r := Assign(PopIdle(w), w.m.idle[0], c);
    forall k | 0 <= k < |r.m.idle| ensures Names(r, k) {
      assert Names(w, k + 1);
    }
  }

  lemma AssignLedger(w: World, c: int)
    requires Parked(w) && Crew(w) && Queue(w.m) && Ledger(w, [c]) && w.m.idle != [] && IsBackend(w.m, w.m.idle[0])
    ensures Ledger(Assign(PopIdle(w), w.m.idle[0], c), [])
  {
    var p := w.m.idle[0];
    var r := Assign(PopIdle(w), p, c);
    Append(w.log, Sent(c, w.m.sockets[p].fd));
    forall q | IsBackend(r.m, q) ensures r.m.sockets[q].fd in Waiting(r.log) <==> q in r.m.idle {
      assert IsBackend(w.m, q);
    }
    assert SentClients(w.log) + [c] == SentClients(w.log) + w.m.jobs + [c];
    assert SentClients(r.log) + r.m.jobs + [] == SentClients(w.log) + [c];
  }

  lemma AssignKeeps(w: World, c: int)
    requires InvWith(w, [c]) && w.m.idle != [] && IsBackend(w.m, w.m.idle[0])
    ensures Inv(Assign(PopIdle(w), w.m.idle[0], c))
  {
    AssignParked(w, c);
    AssignLedger(w, c);
    var r := Assign(PopIdle(w), w.m.idle[0], c);
    assert forall q :: IsBackend(r.m, q) <==> IsBackend(w.m, q);
  }

  lemma {:induction false} DrainKeeps(w: World, c: int, broken: set<int>)
    requires InvWith(w, [c])
    ensures var (r, done) := Drain(w, c, broken);
      InvWith(r, if done then [] else [c]) && (!done ==> r.m.idle == [])
    decreases |w.m.idle|
  {
    if w.m.idle != [] {
      var p := w.m.idle[0];
      if !IsBackend(w.m, p) {
        PopStaleKeeps(w, [c]);
        DrainKeeps(PopIdle(w), c, broken);
      } else if w.m.sockets[p].fd in broken {
        PopCloseKeeps(w, [c]);
        DrainKeeps(Close(PopIdle(w), p), c, broken);
      } else {
        AssignKeeps(w, c);
      }
    }
  }

  // ---------------------------------------------------------------- a client arrives

  /** Only the ledger reads the history. */
  lemma RelogKeeps(c: World, r: World, inHand: seq<int>)
    requires Inv(c) && r == c.(log := r.log) && Ledger(r, inHand)
    ensures InvWith(r, inHand)
  {
    forall k | 0 <= k < |r.m.idle| ensures Names(r, k) {
      assert Names(c, k);
    }
  }

  lemma AcceptKeeps(w: World, c: int)
    requires Inv(w)
    ensures InvWith(w.(log := w.log + [Accepted(c)]), [c])
  {
    var r := w.(log := w.log + [Accepted(c)]);
    Append(w.log, Accepted(c));
    assert SentClients(w.log) + w.m.jobs + [] == SentClients(w.log) + w.m.jobs;
    RelogKeeps(w, r, [c]);
  }

  lemma {:induction false} CountSet(handles: seq<Option<int>>, i: nat, x: int)
    requires i < |handles| && handles[i] == None
    ensures Count(handles[i := Some(x)]) == Count(handles) + 1
  {
    if i == 0 {
      assert handles[i := Some(x)][1..] == handles[1..];
    } else {
      CountSet(handles[1..], i - 1, x);
      assert handles[i := Some(x)][1..] == handles[1..][i - 1 := Some(x)];
    }
  }

  lemma {:induction false} FullCount(handles: seq<Option<int>>)
    requires FirstNull(handles) == |handles|
    ensures Count(handles) == |handles|
  {
    if handles != [] {
      FullCount(handles[1..]);
    }
  }

  lemma SpawnCrew(w: World, i: nat)
    requires w.Shape() && Crew(w) && i < |w.m.handles| && w.m.handles[i] == None
    requires w.m.numWorkers < w.m.maxWorkers - 2
    ensures Crew(w.(m := w.m.(handles := w.m.handles[i := Some(w.m.nextId)],
                              numWorkers := w.m.numWorkers + 1,
                              nextId := w.m.nextId + 1),
                    pending := w.pending + {w.m.nextId}))
  {
    CountSet(w.m.handles, i, w.m.nextId);
    var h := w.m.handles[i := Some(w.m.nextId)];
    assert h[i] == Some(w.m.nextId);
    forall x | Some(x) in w.m.handles ensures Some(x) in h && x < w.m.nextId {
      var k :| 0 <= k < |w.m.handles| && w.m.handles[k] == Some(x);
      assert h[k] == Some(x);
    }
  }

  /** `r` is `w` but for the handle table, the numbering and the pending workers. */
  ghost predicate Restaffed(w: World, r: World) {
    && w.Shape() && r.Shape()
    && r.m == w.m.(handles := r.m.handles, numWorkers := r.m.numWorkers, nextId := r.m.nextId)
    && r.owners == w.owners && r.log == w.log
  }

  lemma RestaffedTable(w: World, r: World)
    requires Restaffed(w, r) && Table(w.m) && Queue(w.m) && Listening(w.m)
    ensures Table(r.m) && Queue(r.m) && Listening(r.m)
  {
    assert forall q :: IsBackend(r.m, q) <==> IsBackend(w.m, q);
  }

  lemma RestaffedParked(w: World, r: World)
    requires Restaffed(w, r) && Parked(w)
    requires w.m.idle == [] || |r.pending| <= |w.pending|
    ensures Parked(r)
  {
    forall k | 0 <= k < |r.m.idle| ensures Names(r, k) {
      assert Names(w, k);
      assert IsBackend(r.m, w.m.idle[k]) <==> IsBackend(w.m, w.m.idle[k]);
    }
  }

  lemma RestaffedLedger(w: World, r: World, inHand: seq<int>)
    requires Restaffed(w, r) && Ledger(w, inHand)
    requires w.m.nextId <= r.m.nextId && r.pending !! Waiting(w.log)
    ensures Ledger(r, inHand)
  {
    assert forall q :: IsBackend(r.m, q) <==> IsBackend(w.m, q);
  }

  lemma RestaffedKeeps(w: World, r: World, inHand: seq<int>)
    requires InvWith(w, inHand) && Restaffed(w, r) && Crew(r)
    requires w.m.idle == [] || |r.pending| <= |w.pending|
    requires w.m.nextId <= r.m.nextId && r.pending !! Waiting(w.log)
    ensures InvWith(r, inHand)
  {
    RestaffedTable(w, r);
    RestaffedParked(w, r);
    RestaffedLedger(w, r, inHand);
  }

  lemma SpawnKeeps(w: World, registers: bool, inHand: seq<int>)
    requires InvWith(w, inHand) && w.m.idle == []
    ensures InvWith(Spawn(w, registers), inHand)
    ensures Spawn(w, registers).m.idle == []
  {
    if w.m.numWorkers < w.m.maxWorkers - 2 {
      SpawnsCrew(w, registers);
      RestaffedKeeps(w, Spawn(w, registers), inHand);
    }
  }

  lemma SpawnsCrew(w: World, registers: bool)
    requires w.Shape() && Crew(w) && w.m.idle == [] && w.m.numWorkers < w.m.maxWorkers - 2
    ensures Crew(Spawn(w, registers)) && Restaffed(w, Spawn(w, registers))
    ensures Spawn(w, registers).m.nextId == w.m.nextId + 1
    ensures Spawn(w, registers).pending == w.pending + (if registers then {w.m.nextId} else {})
  {
    var i := FirstNull(w.m.handles);
    if i == |w.m.handles| {
      FullCount(w.m.handles);
    } else if registers {
      SpawnCrew(w, i);
    } else {
      assert forall q :: IsBackend(Spawn(w, registers).m, q) <==> IsBackend(w.m, q);
    }
  }

  lemma EnqueueLedger(w: World, c: int)
    requires w.Shape() && Ledger(w, [c])
    ensures Ledger(Enqueue(w, c), [])
  {
    var r := Enqueue(w, c);
    assert forall q :: IsBackend(r.m, q) <==> IsBackend(w.m, q);
    if |w.m.jobs| < JOB_QLEN {
      assert SentClients(w.log) + w.m.jobs + [c] == SentClients(w.log) + (w.m.jobs + [c]) + [];
    } else {
      var k := Kept(w.log);
      assert k[|k| - 1] == c;
      assert k[..|k| - 1] == SentClients(w.log) + w.m.jobs + [];
      Append(w.log, Refused(c));
    }
  }

  lemma EnqueueQueue(m: State, c: int, r: State)
    requires Table(m) && Queue(m) && Listening(m) && m.idle == []
    requires r == (
      var n := m.(jobs := m.jobs + [c]);
      if |n.jobs| == JOB_QLEN then ArmFrontends(n.(paused := true), CLOSED_ONLY) else n)
    requires |m.jobs| < JOB_QLEN
    ensures Table(r) && Queue(r) && Listening(r)
  {
    assert forall q :: IsBackend(r, q) <==> IsBackend(m, q);
  }

  lemma EnqueueKeeps(w: World, c: int)
    requires InvWith(w, [c]) && w.m.idle == []
    ensures Inv(Enqueue(w, c))
  {
    var r := Enqueue(w, c);
    EnqueueLedger(w, c);
    assert forall q :: IsBackend(r.m, q) <==> IsBackend(w.m, q);
    if |w.m.jobs| < JOB_QLEN {
      EnqueueQueue(w.m, c, r.m);
    }
  }

  /** A client in hand: the search may begin, and what is known if it is in vain. */
  lemma AcceptedClient(w: World, c: int, broken: set<int>)
    requires Inv(w)
    ensures var w0 := w.(log := w.log + [Accepted(c)]);
      && InvWith(w0, [c])
      && var (w1, done) := Drain(w0, c, broken);
         !done ==> w1.m.idle == [] && w1.m.numWorkers == Count(w1.m.handles)
  {
    AcceptKeeps(w, c);
    DrainKeeps(w.(log := w.log + [Accepted(c)]), c, broken);
  }

  lemma FrontendKeeps(w: World, c: int, broken: set<int>, registers: bool)
    requires Inv(w)
    ensures Inv(OnFrontend(w, c, broken, registers))
  {
    var w0 := w.(log := w.log + [Accepted(c)]);
    AcceptKeeps(w, c);
    DrainKeeps(w0, c, broken);
    var (w1, done) := Drain(w0, c, broken);
    if !done {
      SpawnKeeps(w1, registers, [c]);
      EnqueueKeeps(Spawn(w1, registers), c);
    }
  }

  // ---------------------------------------------------------------- a worker says it is idle

  /** A connection that still delivers bytes is not parked, and its worker is not
      waiting. */
  lemma ReadingIsBusy(w: World, p: nat, inHand: seq<int>)
    requires InvWith(w, inHand) && IsBackend(w.m, p) && w.m.masks[p].readable
    ensures p !in w.m.idle && w.m.sockets[p].fd !in Waiting(w.log)
  {
    forall k | 0 <= k < |w.m.idle| ensures w.m.idle[k] != p {
      assert Names(w, k);
    }
  }

  lemma AnnounceCloseLedger(w: World, p: nat)
    requires Inv(w) && IsBackend(w.m, p) && w.m.masks[p].readable
    ensures Ledger(Close(w.(log := w.log + [Announced(w.m.sockets[p].fd)]), p), [])
  {
    ReadingIsBusy(w, p, []);
    Append(w.log, Announced(w.m.sockets[p].fd));
    var r := Close(w.(log := w.log + [Announced(w.m.sockets[p].fd)]), p);
    assert Some(w.m.sockets[p].fd) in w.m.handles;
    forall q | IsBackend(r.m, q) ensures r.m.sockets[q].fd in Waiting(r.log) <==> q in r.m.idle {
      assert IsBackend(w.m, q);
    }
  }

  lemma AnnounceCloseKeeps(w: World, p: nat)
    requires Inv(w) && IsBackend(w.m, p) && w.m.masks[p].readable
    ensures Inv(Close(w.(log := w.log + [Announced(w.m.sockets[p].fd)]), p))
  {
    AnnounceCloseLedger(w, p);
    CloseKeeps(w, p, []);
    RelogKeeps(Close(w, p), Close(w.(log := w.log + [Announced(w.m.sockets[p].fd)]), p), []);
  }

  lemma FeedLedger(w: World, p: nat)
    requires Inv(w) && IsBackend(w.m, p) && w.m.masks[p].readable && |w.m.jobs| > 0
    ensures Ledger(OnIdle(w, p, true), [])
  {
    ReadingIsBusy(w, p, []);
    var fd := w.m.sockets[p].fd;
    var r := OnIdle(w, p, true);
    Append(w.log, Announced(fd));
    Append(w.log + [Announced(fd)], Sent(w.m.jobs[0], fd));
    assert r.log == (w.log + [Announced(fd)]) + [Sent(w.m.jobs[0], fd)];
    assert SentClients(r.log) + r.m.jobs + [] == SentClients(w.log) + w.m.jobs + [];
    assert Waiting(r.log) == Waiting(w.log);
    assert forall q :: IsBackend(r.m, q) <==> IsBackend(w.m, q);
  }

  lemma FeedKeeps(w: World, p: nat)
    requires Inv(w) && IsBackend(w.m, p) && w.m.masks[p].readable && |w.m.jobs| > 0
    ensures Inv(OnIdle(w, p, true))
  {
    FeedLedger(w, p);
    var r := OnIdle(w, p, true);
    assert forall q :: IsBackend(r.m, q) <==> IsBackend(w.m, q);
    assert r.m.idle == [];
  }

  lemma ParkLedger(w: World, p: nat)
    requires Inv(w) && IsBackend(w.m, p) && w.m.masks[p].readable && w.m.jobs == [] && |w.m.idle| < w.m.Slots()
    ensures Ledger(OnIdle(w, p, true), [])
  {
    ReadingIsBusy(w, p, []);
    var fd := w.m.sockets[p].fd;
    var r := OnIdle(w, p, true);
    Append(w.log, Announced(fd));
    assert Some(fd) in w.m.handles;
    forall q | IsBackend(r.m, q) ensures r.m.sockets[q].fd in Waiting(r.log) <==> q in r.m.idle {
      assert IsBackend(w.m, q);
    }
  }

  lemma ParkParked(w: World, p: nat)
    requires Inv(w) && IsBackend(w.m, p) && w.m.masks[p].readable && w.m.jobs == [] && |w.m.idle| < w.m.Slots()
    ensures Parked(OnIdle(w, p, true))
  {
    ReadingIsBusy(w, p, []);
    Occupied(w.m, p);
    var r := OnIdle(w, p, true);
    forall k | 0 <= k < |r.m.idle| ensures Names(r, k) {
      if k < |w.m.idle| {
        assert Names(w, k);
      }
    }
  }

  lemma ParkKeeps(w: World, p: nat)
    requires Inv(w) && IsBackend(w.m, p) && w.m.masks[p].readable && w.m.jobs == []
    ensures |w.m.idle| < w.m.Slots()
    ensures Inv(OnIdle(w, p, true))
  {
    IdleFits(w, []);
    Occupied(w.m, p);
    ParkLedger(w, p);
    ParkParked(w, p);
    var r := OnIdle(w, p, true);
    assert forall q :: IsBackend(r.m, q) <==> IsBackend(w.m, q);
  }

  lemma IdleKeeps(w: World, p: nat, sendOk: bool)
    requires Inv(w) && IsBackend(w.m, p) && w.m.masks[p].readable
    ensures Inv(OnIdle(w, p, sendOk))
  {
    if |w.m.jobs| > 0 {
      if sendOk {
        FeedKeeps(w, p);
      } else {
        AnnounceCloseKeeps(w, p);
      }
    } else {
      ParkKeeps(w, p);
      assert OnIdle(w, p, sendOk) == OnIdle(w, p, true);
    }
  }

  // ---------------------------------------------------------------- bytes from a worker

  lemma FramedTable(m: State, p: nat, f: Framing)
    requires Table(m) && Listening(m) && IsBackend(m, p) && f.Ok()
    requires p !in m.idle && m.sockets[p].readOffset < FRAME
    ensures Table(Framed(m, p, f)) && Listening(Framed(m, p, f))
  {
    var r := Framed(m, p, f);
    assert forall q :: IsBackend(r, q) <==> IsBackend(m, q);
  }

  lemma FramedRest(w: World, p: nat, f: Framing)
    requires w.Shape() && Crew(w) && Parked(w) && Queue(w.m) && Ledger(w, []) && IsBackend(w.m, p) && f.Ok()
    ensures var r := w.(m := Framed(w.m, p, f)); Crew(r) && Parked(r) && Queue(r.m) && Ledger(r, [])
  {
    var r := w.(m := Framed(w.m, p, f));
    assert forall q :: IsBackend(r.m, q) <==> IsBackend(w.m, q);
    forall k | 0 <= k < |r.m.idle| ensures Names(r, k) {
      assert Names(w, k);
    }
  }

  /** The greeting's bookkeeping changes nothing else. */
  lemma FramingKeeps(w: World, p: nat, f: Framing)
    requires Inv(w) && IsBackend(w.m, p) && f.Ok()
    requires w.m.masks[p].readable && w.m.sockets[p].readOffset < FRAME
    ensures Inv(w.(m := Framed(w.m, p, f)))
  {
    ReadingIsBusy(w, p, []);
    FramedTable(w.m, p, f);
    FramedRest(w, p, f);
  }

  /** What close_socket leaves, with the offset of a failed recv. */
  function Poisoned(m: State, p: nat): (r: State)
    requires m.Shape() && p < m.Slots() && m.sockets[p].kind == Unset
    ensures r.Shape()
  {
    m.(sockets := m.sockets[p := ZEROED.(readOffset := 255)])
  }

  lemma PoisonTable(m: State, p: nat)
    requires Table(m) && m.Fixed() <= p < m.Slots() && m.sockets[p].kind == Unset
    ensures Table(Poisoned(m, p))
  {
  }

  /** On a zeroed entry, -1 is 255. */
  lemma FailedOffset(m: State, p: nat)
    requires m.Shape() && p < m.Slots() && m.sockets[p].kind == Backend
    ensures AddToOffset(CloseSocket(m, p), p, -1) == Poisoned(CloseSocket(m, p), p)
  {
  }

  lemma PoisonKeeps(w: World, p: nat)
    requires Inv(w) && IsBackend(w.m, p)
    ensures Inv(w.(m := AddToOffset(CloseSocket(w.m, p), p, -1)))
  {
    CloseKeeps(w, p, []);
    Occupied(w.m, p);
    FailedOffset(w.m, p);
    var c := Close(w, p);
    PoisonTable(c.m, p);
    PoisonRest(c, p);
  }

  lemma PoisonRest(c: World, p: nat)
    requires c.Shape() && Crew(c) && Parked(c) && Queue(c.m) && Ledger(c, []) && p < c.m.Slots() && c.m.sockets[p].kind == Unset
    ensures var r := c.(m := Poisoned(c.m, p)); Crew(r) && Parked(r) && Queue(r.m) && Ledger(r, [])
  {
    var r := c.(m := Poisoned(c.m, p));
    assert forall q :: IsBackend(r.m, q) <==> IsBackend(c.m, q);
    forall k | 0 <= k < |r.m.idle| ensures Names(r, k) {
      assert Names(c, k);
    }
  }

  lemma MuteKeeps(w: World, p: nat)
    requires Inv(w) && IsBackend(w.m, p) && w.m.sockets[p].readOffset >= FRAME
    ensures Inv(w.(m := w.m.(masks := w.m.masks[p := CLOSED_ONLY])))
  {
    Occupied(w.m, p);
    var r := w.(m := w.m.(masks := w.m.masks[p := CLOSED_ONLY]));
    assert forall q :: IsBackend(r.m, q) <==> IsBackend(w.m, q);
    forall k | 0 <= k < |r.m.idle| ensures Names(r, k) {
      assert Names(w, k);
    }
  }

  /** A greeting is complete. */
  lemma GreetedKeeps(w: World, p: nat, f: Framing, sendOk: bool)
    requires Inv(w) && IsBackend(w.m, p) && f.Ok()
    requires w.m.masks[p].readable && w.m.sockets[p].readOffset < FRAME
    ensures Inv(OnIdle(w.(m := Framed(w.m, p, f)), p, sendOk))
  {
    FramingKeeps(w, p, f);
    IdleKeeps(w.(m := Framed(w.m, p, f)), p, sendOk);
  }

  lemma ReadableKeeps(w: World, p: nat, received: Option<seq<byte>>, broken: set<int>)
    requires Inv(w) && IsBackend(w.m, p) && w.m.masks[p].readable
    requires received.Some? && w.m.sockets[p].readOffset < FRAME ==> |received.value| <= FRAME - w.m.sockets[p].readOffset
    ensures Inv(OnBackendReadable(w, p, received, broken))
  {
    var s := w.m.sockets[p];
    if s.readOffset >= FRAME {
      MuteKeeps(w, p);
    } else if received.None? {
      PoisonKeeps(w, p);
    } else {
      match Receive(Framing(s.readOffset, s.workerId), received.value)
      case Rejected =>
        CloseKeeps(w, p, []);
      case Partial(f) =>
        FramingKeeps(w, p, f);
      case Complete(f) =>
        GreetedKeeps(w, p, f, s.fd !in broken);
    }
  }

  // ---------------------------------------------------------------- workers end

  lemma LostKeeps(w: World, lost: set<int>)
    requires Inv(w)
    ensures Inv(w.(pending := w.pending - lost))
  {
    var r := w.(pending := w.pending - lost);
    SubsetSize(r.pending, w.pending);
    assert forall q :: IsBackend(r.m, q) <==> IsBackend(w.m, q);
    RestaffedKeeps(w, r, []);
  }

  lemma {:induction false} KeepCount(handles: seq<Option<int>>, stopped: set<int>)
    ensures Count(Keep(handles, stopped)) <= Count(handles)
  {
    if handles != [] {
      KeepCount(handles[1..], stopped);
      assert Keep(handles, stopped)[1..] == Keep(handles[1..], stopped);
    }
  }

  lemma DiedCrew(w: World, stopped: set<int>)
    requires w.Shape() && Crew(w) && stopped !! w.pending
    requires forall p :: IsBackend(w.m, p) ==> w.m.sockets[p].fd !in stopped
    ensures Crew(OnWorkerDied(w, stopped)) && Restaffed(w, OnWorkerDied(w, stopped))
  {
    KeepCount(w.m.handles, stopped);
    var h := Keep(w.m.handles, stopped);
    forall x | Some(x) in w.m.handles && x !in stopped ensures Some(x) in h {
      var k :| 0 <= k < |w.m.handles| && w.m.handles[k] == Some(x);
      assert h[k] == Some(x);
    }
    forall x | Some(x) in h ensures Some(x) in w.m.handles {
      var k :| 0 <= k < |h| && h[k] == Some(x);
      assert w.m.handles[k] == Some(x);
    }
    assert forall q :: IsBackend(OnWorkerDied(w, stopped).m, q) <==> IsBackend(w.m, q);
  }

  lemma DiedKeeps(w: World, stopped: set<int>)
    requires Inv(w) && stopped !! w.pending
    requires forall p :: IsBackend(w.m, p) ==> w.m.sockets[p].fd !in stopped
    ensures Inv(OnWorkerDied(w, stopped))
  {
    DiedCrew(w, stopped);
    RestaffedKeeps(w, OnWorkerDied(w, stopped), []);
  }

  // ---------------------------------------------------------------- any event

  /** What the model assumes of the kernel and the postmaster at one event: only
      spawned workers connect, once each; a worker is reported stopped only after
      its connection was closed; `recv` returns at most what it was asked for. */
  ghost predicate EnvironmentOk(w: World, e: Event) {
    && w.Shape()
    && e.slot < w.m.Slots()
    && Fits(w.m, e, e.slot)
    && (w.m.sockets[e.slot].kind == Ipc && e.readable && e.arrival.Some? ==> e.arrival.value in w.pending - e.lost)
    && (e.latch ==> e.stopped !! w.pending - e.lost)
    && (e.latch ==> forall p :: IsBackend(w.m, p) ==> w.m.sockets[p].fd !in e.stopped)
  }

  /** The event is one the wait set can report for the slot's current owner. */
  predicate Fresh(w: World, e: Event) {
    IsBackend(w.m, e.slot) && e.slot < |w.m.masks| && e.readable ==> w.m.masks[e.slot].readable
  }

  lemma LatchedKeeps(w: World, e: Event)
    requires Inv(w) && EnvironmentOk(w, e)
    ensures Inv(Latched(w, e)) && Latched(w, e).pending == w.pending - e.lost
  {
    var w0 := w.(pending := w.pending - e.lost);
    LostKeeps(w, e.lost);
    if e.latch {
      assert forall p :: IsBackend(w0.m, p) <==> IsBackend(w.m, p);
      DiedKeeps(w0, e.stopped);
    }
  }

  /** What a handler needs to know about the event. */
  predicate Handleable(w: World, e: Event) {
    && w.Shape() && e.slot < w.m.Slots() && Fits(w.m, e, e.slot) && Fresh(w, e)
    && (w.m.sockets[e.slot].kind == Ipc && e.readable && e.arrival.Some? ==> e.arrival.value in w.pending)
  }

  lemma HandleKeeps(w: World, e: Event)
    requires Inv(w) && Handleable(w, e)
    ensures Inv(Handle(w, e))
  {
    match w.m.sockets[e.slot].kind
    case Unset =>
    case Ipc =>
      if e.readable && e.arrival.Some? {
        ConnectKeeps(w, e.arrival.value);
      }
    case Frontend =>
      if e.readable && e.arrival.Some? {
        FrontendKeeps(w, e.arrival.value, e.broken, e.registers);
      }
    case Backend =>
      if e.closed {
        CloseKeeps(w, e.slot, []);
      } else if e.readable {
        ReadableKeeps(w, e.slot, e.received, e.broken);
      }
  }

  lemma DeliverKeeps(w: World, e: Event)
    requires Inv(w) && EnvironmentOk(w, e) && Fresh(w, e)
    ensures Inv(Deliver(w, e))
  {
    LatchedKeeps(w, e);
    HandleKeeps(Latched(w, e), e);
  }
}
