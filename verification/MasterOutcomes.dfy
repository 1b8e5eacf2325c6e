/** What each kind of event leaves behind, field by field and for all events. */
module MasterOutcomes {
  import opened Base
  import opened Hello
  import opened Handshake
  import opened MasterModel
  import opened MasterInv
  import opened MasterSteps
  import opened MasterTheorems
  import opened MasterGreetings

  // ---------------------------------------------------------------- what a step may change

  /** No slot but `p` changed. */
  predicate OtherSlotsSame(w: World, r: World, p: nat) {
    |r.m.sockets| == |w.m.sockets| && forall q :: 0 <= q < |w.m.sockets| && q != p ==> r.m.sockets[q] == w.m.sockets[q]
  }

  /** Clients, idle entries and what the wait set is armed for are as they were. */
  predicate SameQueues(w: World, r: World) {
    r.m.jobs == w.m.jobs && r.m.paused == w.m.paused && r.m.idle == w.m.idle && r.owners == w.owners && r.m.masks == w.m.masks
  }

  /** The connection at `p` is gone and its position the last to be given out again;
      `log` is the history. */
  predicate Closes(w: World, r: World, p: nat, log: seq<Entry>) {
    && p < |r.m.sockets| && r.m.sockets[p].kind == Unset
    && r.m.free == w.m.free + [p]
    && OtherSlotsSame(w, r, p) && SameQueues(w, r)
    && r.log == log
  }

  /** Position `p`, and no other, is armed for the other end closing alone. */
  predicate OnlyMutes(w: World, r: World, p: nat) {
    && p < |r.m.masks| == |w.m.masks| && r.m.masks[p] == CLOSED_ONLY
    && forall q :: 0 <= q < |w.m.masks| && q != p ==> r.m.masks[q] == w.m.masks[q]
  }

  // ---------------------------------------------------------------- a connection ends

  /** An event that reports the other end closed closes the connection, parked or
      not, and does nothing else. */
  lemma ClosedEventCloses(w: World, e: Event)
    requires Inv(w) && EnvironmentOk(w, e) && IsBackend(w.m, e.slot) && e.closed
    ensures Closes(w, Deliver(w, e), e.slot, w.log)
  {
  }

  /** So does a failed recv on a connection that is listened to. */
  lemma FailedRecvCloses(w: World, e: Event)
    requires Inv(w) && EnvironmentOk(w, e) && IsBackend(w.m, e.slot)
    requires !e.closed && e.readable && e.received.None? && w.m.sockets[e.slot].readOffset < FRAME
    ensures Closes(w, Deliver(w, e), e.slot, w.log)
  {
  }

  /** Bytes for a slot whose offset is past the greeting are not read: from then on
      only its closing is reported. */
  lemma MutedEventMutes(w: World, e: Event)
    requires Inv(w) && EnvironmentOk(w, e) && IsBackend(w.m, e.slot)
    requires !e.closed && e.readable && w.m.sockets[e.slot].readOffset >= FRAME
    ensures var r := Deliver(w, e);
      && r.m.sockets == w.m.sockets && r.m.free == w.m.free && r.log == w.log
      && r.m.jobs == w.m.jobs && r.m.idle == w.m.idle
      && OnlyMutes(w, r, e.slot)
  {
  }

  // ---------------------------------------------------------------- bytes of a greeting

  /** The connection at `p` still belongs to `x`; all other slots, and the free ones,
      are as they were. */
  predicate Stays(w: World, r: World, p: nat, x: int) {
    && IsBackend(r.m, p) && r.m.sockets[p].fd == x
    && OtherSlotsSame(w, r, p) && r.m.free == w.m.free
  }

  /** Worker `x` at `p` has said it is idle, with no client waiting: it is parked. */
  predicate Parks(w: World, r: World, p: nat, x: int) {
    && Stays(w, r, p, x)
    && r.m.jobs == [] && r.m.paused == w.m.paused
    && r.m.idle == w.m.idle + [p] && r.owners == w.owners + [x]
    && OnlyMutes(w, r, p)
    && r.log == w.log + [Announced(x)]
  }

  /** ... and the oldest waiting client is sent to it, which stays listened to; and
      accepting goes on. */
  predicate HandsOut(w: World, r: World, p: nat, x: int)
    requires w.m.jobs != []
  {
    && Stays(w, r, p, x)
    && r.m.jobs == w.m.jobs[1..] && !r.m.paused
    && r.m.idle == w.m.idle && r.owners == w.owners
    && p < |r.m.masks| == |w.m.masks| && r.m.masks[p] == w.m.masks[p]
    && r.log == w.log + [Announced(x)] + [Sent(w.m.jobs[0], x)]
  }

  /** What the master does when the bytes `next` of a greeting have come from worker
      `x` at `p`: it waits for more, or closes the connection on a mismatch; and when
      the greeting is whole, it parks the worker or hands out the oldest waiting
      client.  If that cannot be sent, the connection is closed and the client
      still the oldest waiting. */
  predicate Answered(w: World, r: World, p: nat, x: int, next: seq<byte>, sends: bool) {
    if !Greets(next) then Closes(w, r, p, w.log)
    else if |next| < FRAME then Stays(w, r, p, x) && SameQueues(w, r) && r.log == w.log
    else if w.m.jobs == [] then Parks(w, r, p, x)
    else if sends then HandsOut(w, r, p, x)
    else Closes(w, r, p, w.log + [Announced(x)])
  }

  lemma IdleAnswers(w: World, p: nat, sends: bool)
    requires w.Shape() && Queue(w.m) && IsBackend(w.m, p) && |w.m.idle| < w.m.Slots()
    ensures var (r, x) := (OnIdle(w, p, sends), w.m.sockets[p].fd);
      if w.m.jobs == [] then Parks(w, r, p, x)
      else if sends then HandsOut(w, r, p, x)
      else Closes(w, r, p, w.log + [Announced(x)])
  {
  }

  /** What the offset of `p` was does not matter to what happens to the rest. */
  lemma FramedAnswers(w: World, f: Framing, p: nat, x: int, sends: bool)
    requires w.Shape() && Queue(w.m) && IsBackend(w.m, p) && |w.m.idle| < w.m.Slots() && f.Ok() && w.m.sockets[p].fd == x
    ensures var r := OnIdle(w.(m := Framed(w.m, p, f)), p, sends);
      if w.m.jobs == [] then Parks(w, r, p, x)
      else if sends then HandsOut(w, r, p, x)
      else Closes(w, r, p, w.log + [Announced(x)])
  {
    IdleAnswers(w.(m := Framed(w.m, p, f)), p, sends);
  }

  lemma ReceiveIsAnswered(w: World, p: nat, received: seq<byte>, broken: set<int>, got: seq<byte>)
    requires w.Shape() && Queue(w.m) && IsBackend(w.m, p) && |w.m.idle| < w.m.Slots() && w.m.sockets[p].readOffset < FRAME
    requires |received| <= FRAME - w.m.sockets[p].readOffset
    requires Tracks(Framing(w.m.sockets[p].readOffset, w.m.sockets[p].workerId), got)
    ensures var x := w.m.sockets[p].fd;
      Answered(w, OnBackendReadable(w, p, Some(received), broken), p, x, got + received, x !in broken)
  {
    var s := w.m.sockets[p];
    ReceiveTracks(Framing(s.readOffset, s.workerId), got, received);
    match Receive(Framing(s.readOffset, s.workerId), received)
    case Rejected =>
    case Partial(f) =>
    case Complete(f) =>
      FramedAnswers(w, f, p, s.fd, s.fd !in broken);
  }

  /** Latch events and dying workers touch no connection, queue or client. */
  lemma SameButStaff(w: World, w1: World, r: World, p: nat, x: int, next: seq<byte>, sends: bool)
    requires Answered(w1, r, p, x, next, sends) && Restaffed(w, w1)
    ensures Answered(w, r, p, x, next, sends)
  {
  }

  lemma LatchedRestaffs(w: World, e: Event)
    requires w.Shape()
    requires e.latch ==> Count(Keep(w.m.handles, e.stopped)) <= w.m.numWorkers
    ensures Restaffed(w, Latched(w, e))
  {
  }

  lemma GreetingIsAnswered(w: World, e: Event, x: int, got: seq<byte>)
    requires EnvironmentOk(w, e) && Listened(w, x, e.slot, got)
    requires !e.closed && e.readable && e.received.Some?
    ensures Answered(w, Deliver(w, e), e.slot, x, got + e.received.value, x !in e.broken)
  {
    var w1 := Latched(w, e);
    KeepCount(w.m.handles, e.stopped);
    LatchedRestaffs(w, e);
    LatchedKeeps(w, e);
    IdleFits(w1, []);
    ReceiveIsAnswered(w1, e.slot, e.received.value, e.broken, got);
    SameButStaff(w, w1, Deliver(w, e), e.slot, x, got + e.received.value, x !in e.broken);
  }

  // ---------------------------------------------------------------- every client that is sent

  /** What follows `log` in `r` are sends that worked: to a connection of `w` that is
      not broken, of the client `c`. */
  ghost predicate SendsWork(log: seq<Entry>, w: World, r: World, broken: set<int>, c: int) {
    && log <= r.log
    && forall i :: |log| <= i < |r.log| && r.log[i].Sent? ==>
         && r.log[i].client == c && r.log[i].worker !in broken
         && exists p :: IsBackend(w.m, p) && w.m.sockets[p].fd == r.log[i].worker
  }

  lemma {:induction false} DrainSendsWork(w: World, c: int, broken: set<int>)
    requires w.Shape()
    ensures SendsWork(w.log, w, Drain(w, c, broken).0, broken, c)
    decreases |w.m.idle|
  {
    if w.m.idle != [] {
      var p := w.m.idle[0];
      var w1 := PopIdle(w);
      if w1.m.sockets[p].kind != Backend {
        DrainSendsWork(w1, c, broken);
      } else if w1.m.sockets[p].fd in broken {
        var w2 := Close(w1, p);
        DrainSendsWork(w2, c, broken);
        assert forall q :: IsBackend(w2.m, q) ==> IsBackend(w.m, q) && w2.m.sockets[q].fd == w.m.sockets[q].fd;
      } else {
        assert IsBackend(w.m, p);
      }
    }
  }

  lemma FrontendSendsWork(w: World, c: int, broken: set<int>, registers: bool)
    requires w.Shape()
    ensures SendsWork(w.log, w, OnFrontend(w, c, broken, registers), broken, c)
  {
    var w0 := w.(log := w.log + [Accepted(c)]);
    DrainSendsWork(w0, c, broken);
    var (w1, done) := Drain(w0, c, broken);
    assert w.log <= w0.log <= w1.log;
    assert w0.log[|w.log|] == Accepted(c) && w1.log[|w.log|] == w0.log[|w.log|];
    assert forall q :: IsBackend(w0.m, q) <==> IsBackend(w.m, q);
    if !done {
      UnplacedSends(w1, c, registers);
    }
  }

  lemma UnplacedSends(w: World, c: int, registers: bool)
    requires w.Shape()
    ensures var r := Enqueue(Spawn(w, registers), c); r.log == w.log || r.log == w.log + [Refused(c)]
  {
  }

  lemma IdleSendsWork(w: World, p: nat, sends: bool, broken: set<int>)
    requires w.Shape() && IsBackend(w.m, p) && (sends ==> w.m.sockets[p].fd !in broken)
    ensures SendsWork(w.log, w, OnIdle(w, p, sends), broken, if w.m.jobs == [] then 0 else w.m.jobs[0])
  {
  }

  lemma BackendSendsWork(w: World, e: Event)
    requires w.Shape() && IsBackend(w.m, e.slot) && Fits(w.m, e, e.slot)
    ensures SendsWork(w.log, w, OnBackend(w, e.slot, e), e.broken, if w.m.jobs == [] then 0 else w.m.jobs[0])
  {
    var s := w.m.sockets[e.slot];
    if !e.closed && e.readable && s.readOffset < FRAME && e.received.Some? {
      match Receive(Framing(s.readOffset, s.workerId), e.received.value)
      case Rejected =>
      case Partial(f) =>
      case Complete(f) =>
        var w1 := w.(m := Framed(w.m, e.slot, f));
        IdleSendsWork(w1, e.slot, s.fd !in e.broken, e.broken);
        assert forall q :: IsBackend(w1.m, q) ==> IsBackend(w.m, q) && w1.m.sockets[q].fd == w.m.sockets[q].fd;
    }
  }

  /** The client an event can send: the one it brings, or the oldest waiting. */
  function Offered(w: World, e: Event): int
    requires e.slot < |w.m.sockets|
  {
    if w.m.sockets[e.slot].kind == Frontend && e.arrival.Some? then e.arrival.value
    else if w.m.jobs == [] then 0
    else w.m.jobs[0]
  }

  /** For every event: the history only grows, and each client it records as sent
      went to an open connection on which sendmsg did not fail. */
  lemma SentMeansItWorked(w: World, e: Event)
    requires EnvironmentOk(w, e)
    ensures SendsWork(w.log, w, Deliver(w, e), e.broken, Offered(w, e))
  {
    var w1 := Latched(w, e);
    assert forall q :: IsBackend(w1.m, q) <==> IsBackend(w.m, q);
    match w1.m.sockets[e.slot].kind
    case Unset =>
    case Ipc =>
    case Frontend =>
      if e.readable && e.arrival.Some? {
        FrontendSendsWork(w1, e.arrival.value, e.broken, e.registers);
      }
    case Backend =>
      BackendSendsWork(w1, e);
  }

  // ---------------------------------------------------------------- clients and workers arrive

  /** A client that some idle worker can take goes to the oldest such worker, whose
      connection is listened to again; nobody is started or queued for it. */
  lemma ClientIsPlaced(w: World, c: int, broken: set<int>, registers: bool, k: nat)
    requires Inv(w) && k < |w.m.idle| && !Passed(w, broken, k)
    requires forall j :: 0 <= j < k ==> Passed(w, broken, j)
    ensures var (r, p) := (OnFrontend(w, c, broken, registers), w.m.idle[k]);
      && r.log == w.log + [Accepted(c)] + [Sent(c, w.m.sockets[p].fd)]
      && r.m.idle == w.m.idle[k + 1..] && r.m.jobs == w.m.jobs
      && r.pending == w.pending && r.m.nextId == w.m.nextId && r.m.numWorkers == w.m.numWorkers
      && IsBackend(r.m, p) && r.m.sockets[p] == w.m.sockets[p] && r.m.masks[p].readable
      && forall j :: 0 <= j < k ==> !IsBackend(r.m, w.m.idle[j])
    decreases k
  {
    var w0 := w.(log := w.log + [Accepted(c)]);
    AcceptKeeps(w, c);
    assert forall j :: 0 <= j <= k ==> (Passed(w0, broken, j) <==> Passed(w, broken, j));
    PlacedBy(w0, c, broken, k);
    UntouchedByDrain(w0, c, broken);
  }

  lemma {:induction false} PlacedBy(w: World, c: int, broken: set<int>, k: nat)
    requires w.Shape() && Distinct(w.m.idle) && k < |w.m.idle| && !Passed(w, broken, k)
    requires forall j :: 0 <= j < k ==> Passed(w, broken, j)
    ensures var ((r, done), p) := (Drain(w, c, broken), w.m.idle[k]);
      && done
      && r.log == w.log + [Sent(c, w.m.sockets[p].fd)]
      && r.m.idle == w.m.idle[k + 1..]
      && |r.m.sockets| == |w.m.sockets|
      && IsBackend(r.m, p) && r.m.sockets[p] == w.m.sockets[p] && r.m.masks[p].readable
      && forall j :: 0 <= j < k ==> !IsBackend(r.m, w.m.idle[j])
    decreases k
  {
    if k > 0 {
      var w1 := AfterPassing(w);
      DrainPass(w, c, broken);
      forall j | 0 <= j < k ensures Passed(w1, broken, j) <==> Passed(w, broken, j + 1) {
        SameAfterPop(w, broken, j);
      }
      SameAfterPop(w, broken, k - 1);
      PlacedBy(w1, c, broken, k - 1);
      DrainZeroes(w1, c, broken, w.m.idle[0]);
      forall j | 0 <= j < k ensures !IsBackend(Drain(w1, c, broken).0.m, w.m.idle[j]) {
        if j > 0 {
          assert w1.m.idle[j - 1] == w.m.idle[j];
        }
      }
    }
  }

  /** Worker `x` is given the oldest free slot, listened to; nothing else changes. */
  predicate Seats(w: World, r: World, x: int)
    requires w.m.free != []
  {
    var p := w.m.free[0];
    && IsBackend(r.m, p) && r.m.sockets[p].fd == x && r.m.sockets[p].pos == p
    && r.m.free == w.m.free[1..] && OtherSlotsSame(w, r, p)
    && p < |r.m.masks| == |w.m.masks| && r.m.masks[p] == READING
    && (forall q :: 0 <= q < |w.m.masks| && q != p ==> r.m.masks[q] == w.m.masks[q])
    && r.m.jobs == w.m.jobs && r.m.idle == w.m.idle && r.m.paused == w.m.paused && r.log == w.log
  }

  lemma ConnectSeats(w: World, x: int)
    requires w.Shape() && w.m.free != []
    ensures Seats(w, OnBackendConnect(w, x), x)
    ensures OnBackendConnect(w, x).pending == w.pending - {x}
  {
  }

  /** A worker that connects gets the slot freed longest ago. */
  lemma WorkerIsSeated(w: World, e: Event)
    requires Inv(w) && EnvironmentOk(w, e)
    requires w.m.sockets[e.slot].kind == Ipc && e.readable && e.arrival.Some?
    ensures w.m.free != [] && Seats(w, Deliver(w, e), e.arrival.value)
    ensures Deliver(w, e).pending == w.pending - e.lost - {e.arrival.value}
  {
    var w1 := Latched(w, e);
    LatchedKeeps(w, e);
    ConnectKeeps(w1, e.arrival.value);
    ConnectSeats(w1, e.arrival.value);
    KeepCount(w.m.handles, e.stopped);
    LatchedRestaffs(w, e);
    SeatsRestaffed(w, w1, Deliver(w, e), e.arrival.value);
  }

  lemma SeatsRestaffed(w: World, w1: World, r: World, x: int)
    requires Restaffed(w, w1) && w1.m.free != [] && Seats(w1, r, x)
    ensures w.m.free != [] && Seats(w, r, x)
  {
  }

  /** When accept fails, or nothing is reported for the slot, nothing happens. */
  lemma NothingArrives(w: World, e: Event)
    requires EnvironmentOk(w, e) && !e.closed
    requires !e.readable || (w.m.sockets[e.slot].kind != Backend && e.arrival.None?)
    ensures Deliver(w, e) == Latched(w, e)
  {
  }

  // ---------------------------------------------------------------- workers end

  /** Exactly the handles of workers that stopped are forgotten, and the others are
      counted; only then may as many new ones be started. */
  lemma StoppedAreForgotten(w: World, e: Event)
    requires Inv(w) && EnvironmentOk(w, e) && e.latch
    ensures var r := Latched(w, e);
      && (forall x :: Some(x) in r.m.handles <==> Some(x) in w.m.handles && x !in e.stopped)
      && r.m.numWorkers == Count(r.m.handles)
      && r.m.numWorkers <= w.m.numWorkers
      && |r.m.handles| == |w.m.handles|
      && r.m.nextId == w.m.nextId && r.m.jobs == w.m.jobs && r.m.idle == w.m.idle && r.log == w.log
  {
    LatchedKeeps(w, e);
    KeepCount(w.m.handles, e.stopped);
    var h := Keep(w.m.handles, e.stopped);
    forall x ensures Some(x) in h <==> Some(x) in w.m.handles && x !in e.stopped {
      if Some(x) in w.m.handles && x !in e.stopped {
        var k :| 0 <= k < |w.m.handles| && w.m.handles[k] == Some(x);
        assert h[k] == Some(x);
      }
      if Some(x) in h {
        var k :| 0 <= k < |h| && h[k] == Some(x);
        assert w.m.handles[k] == Some(x);
      }
    }
  }

  /** Without a stopped worker the handle table stays as it is. */
  lemma NobodyStopped(w: World, e: Event)
    requires Inv(w) && EnvironmentOk(w, e) && (!e.latch || e.stopped == {})
    ensures Latched(w, e).m == w.m
  {
    assert Keep(w.m.handles, {}) == w.m.handles;
  }

  // ---------------------------------------------------------------- where the code would go wrong

  /** What each step must not meet, and NothingGoesWrong excludes: a worker that finds
      no slot, a spawn that finds no handle, a full idle ring, more handles than
      workers. */
  lemma FaultsIff(w: World, x: int, p: nat, stopped: set<int>, registers: bool)
    requires w.Shape() && !w.m.fault && IsBackend(w.m, p)
    ensures OnBackendConnect(w, x).m.fault <==> w.m.free == []
    ensures Spawn(w, registers).m.fault <==>
      w.m.idle == [] && w.m.numWorkers < w.m.maxWorkers - 2 && None !in w.m.handles
    ensures ParkAt(w, p).m.fault <==> |w.m.idle| >= |w.m.sockets|
    ensures OnWorkerDied(w, stopped).m.fault <==> Count(Keep(w.m.handles, stopped)) > w.m.numWorkers
  {
    var i := FirstNull(w.m.handles);
    assert i < |w.m.handles| ==> w.m.handles[i] == None;
  }
}
