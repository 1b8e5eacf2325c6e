/**
 The dispatcher of master.c as a state machine on values: one function per
 handler, over everything the handlers update in place.  The class in
 Dispatcher.dfy performs the same steps on arrays and rings.

 A connection from a worker is named (`fd`) by the worker that made it, since a
 worker connects once.  On the supported platforms WL_SOCKET_ACCEPT is the same
 bit as WL_SOCKET_READABLE, so one flag stands for both.
 */
module MasterModel {
  import opened Base
  import opened Hello

  const JOB_QLEN := 1024

  datatype Kind = Unset | Ipc | Frontend | Backend

  /** The events a position of the wait set is armed for. */
  datatype Interest = Interest(readable: bool, closed: bool)

  const LATCH_ONLY := Interest(false, false)
  const ACCEPTING := Interest(true, false)
  const READING := Interest(true, true)
  const CLOSED_ONLY := Interest(false, true)

  datatype Socket = Socket(kind: Kind, fd: int, pos: nat, readOffset: nat, workerId: seq<byte>)

  const ZEROED := Socket(Unset, 0, 0, 0, [0, 0, 0, 0])

  /** The static variables of master.c, with each ring as the sequence it holds.
      `fault` is raised where the C code would index outside an array or fail an
      Assert. */
  datatype State = State(
    listeners: nat,
    maxWorkers: nat,
    sockets: seq<Socket>,
    masks: seq<Interest>,
    free: seq<nat>,
    idle: seq<nat>,
    jobs: seq<int>,
    paused: bool,
    handles: seq<Option<int>>,
    numWorkers: nat,
    nextId: int,
    fault: bool)
  {
    function Slots(): nat { 1 + listeners + maxWorkers }

    /** The first position a backend can have. */
    function Fixed(): nat { 2 + listeners }

    predicate Shape() {
      && |sockets| == |masks| == Slots()
      && |handles| == maxWorkers
      && (forall i :: 0 <= i < |free| ==> free[i] < Slots())
      && (forall i :: 0 <= i < |idle| ==> idle[i] < Slots())
      && (forall p :: 0 <= p < |sockets| && sockets[p].kind != Unset ==> sockets[p].pos == p)
      && (forall p :: 0 <= p < |sockets| ==> |sockets[p].workerId| == 4)
    }
  }

  /** What happened, in order: a client was accepted, turned away, or handed to a
      worker's channel; a worker announced itself idle. */
  datatype Entry = Accepted(client: int) | Refused(client: int) | Sent(client: int, worker: int) | Announced(worker: int)

  /** The dispatcher, the workers that were spawned and may still connect, which
      connection each idle entry was pushed for, and the history. */
  datatype World = World(m: State, pending: set<int>, owners: seq<int>, log: seq<Entry>) {
    predicate Shape() {
      m.Shape() && |owners| == |m.idle|
    }
  }

  /** One element of a wake-up batch, with the outcomes of the system calls its
      handler makes. */
  datatype Event = Event(
    slot: nat,
    latch: bool,
    readable: bool,
    closed: bool,
    arrival: Option<int>,          // accept(): the client or worker, or failure
    broken: set<int>,              // connections on which sendmsg() fails
    registers: bool,               // RegisterDynamicBackgroundWorker()
    received: Option<seq<byte>>,   // recv()
    stopped: set<int>,             // workers reported BGWH_STOPPED
    lost: set<int>)                // workers that died unconnected just before

  function CloseSocket(m: State, p: nat): (r: State)
    requires m.Shape() && p < m.Slots() && m.sockets[p].kind == Backend
    ensures r.Shape()
  {
    m.(free := m.free + [m.sockets[p].pos], sockets := m.sockets[p := ZEROED])
  }

  function Close(w: World, p: nat): (r: World)
    requires w.Shape() && p < w.m.Slots() && w.m.sockets[p].kind == Backend
    ensures r.Shape()
  {
    w.(m := CloseSocket(w.m, p))
  }

  /** ModifyWaitEventEx on every listening frontend socket. */
  function ArmFrontends(m: State, interest: Interest): (r: State)
    requires m.Shape()
    ensures r.Shape()
  {
    m.(masks := seq(m.Slots(), i requires 0 <= i < m.Slots() =>
      if m.sockets[i].kind == Frontend then interest else m.masks[i]))
  }

  function OnBackendConnect(w: World, worker: int): (r: World)
    requires w.Shape()
    ensures r.Shape()
  {
    if w.m.free == [] then w.(m := w.m.(fault := true))
    else
      var p := w.m.free[0];
      w.(pending := w.pending - {worker},
         m := w.m.(
           free := w.m.free[1..],
           sockets := w.m.sockets[p := w.m.sockets[p].(kind := Backend, fd := worker, pos := p)],
           masks := w.m.masks[p := READING]))
  }

  function PopIdle(w: World): (r: World)
    requires w.Shape() && w.m.idle != []
    ensures r.Shape()
  {
    w.(m := w.m.(idle := w.m.idle[1..]), owners := w.owners[1..])
  }

  /** Hands the client to the parked worker behind `p`. */
  function Assign(w: World, p: nat, client: int): (r: World)
    requires w.Shape() && p < w.m.Slots() && w.m.sockets[p].kind == Backend
    ensures r.Shape()
  {
    w.(m := w.m.(masks := w.m.masks[w.m.sockets[p].pos := READING]),
       log := w.log + [Sent(client, w.m.sockets[p].fd)])
  }

  /** The loop that tries idle entries until one takes the client. */
  function Drain(w: World, client: int, broken: set<int>): (r: (World, bool))
    requires w.Shape()
    ensures r.0.Shape()
    decreases |w.m.idle|
  {
    if w.m.idle == [] then (w, false)
    else
      var p := w.m.idle[0];
      var w1 := PopIdle(w);
      if w1.m.sockets[p].kind != Backend then Drain(w1, client, broken)
      else if w1.m.sockets[p].fd in broken then Drain(Close(w1, p), client, broken)
      else (Assign(w1, p, client), true)
  }

  function FirstNull(handles: seq<Option<int>>): (i: nat)
    ensures i <= |handles|
    ensures i < |handles| ==> handles[i] == None
    ensures forall j :: 0 <= j < i ==> handles[j] != None
  {
    if handles == [] || handles[0] == None then 0 else 1 + FirstNull(handles[1..])
  }

  function Spawn(w: World, registers: bool): (r: World)
    requires w.Shape()
    ensures r.Shape()
  {
    if w.m.idle == [] && w.m.numWorkers < w.m.maxWorkers - 2 then
      var i := FirstNull(w.m.handles);
      if i == |w.m.handles| then w.(m := w.m.(fault := true))
      else if registers then
        w.(m := w.m.(handles := w.m.handles[i := Some(w.m.nextId)],
                     numWorkers := w.m.numWorkers + 1,
                     nextId := w.m.nextId + 1),
           pending := w.pending + {w.m.nextId})
      else w.(m := w.m.(nextId := w.m.nextId + 1))
    else w
  }

  function Enqueue(w: World, client: int): (r: World)
    requires w.Shape()
    ensures r.Shape()
  {
    if |w.m.jobs| < JOB_QLEN then
      var m := w.m.(jobs := w.m.jobs + [client]);
      w.(m := if |m.jobs| == JOB_QLEN then ArmFrontends(m.(paused := true), CLOSED_ONLY) else m)
    else w.(log := w.log + [Refused(client)])
  }

  function OnFrontend(w: World, client: int, broken: set<int>, registers: bool): (r: World)
    requires w.Shape()
    ensures r.Shape()
  {
    var (w1, done) := Drain(w.(log := w.log + [Accepted(client)]), client, broken);
    if done then w1 else Enqueue(Spawn(w1, registers), client)
  }

  /** Hands the oldest waiting client to the connection `fd`, and resumes accepting
      if that was paused. */
  function GiveJob(w: World, fd: int): (r: World)
    requires w.Shape() && |w.m.jobs| > 0
    ensures r.Shape()
  {
    var m := w.m.(jobs := w.m.jobs[1..]);
    w.(m := if m.paused then ArmFrontends(m.(paused := false), ACCEPTING) else m,
       log := w.log + [Sent(w.m.jobs[0], fd)])
  }

  /** Puts the connection at `p` on the idle ring. */
  function ParkAt(w: World, p: nat): (r: World)
    requires w.Shape() && p < w.m.Slots() && w.m.sockets[p].kind == Backend
    ensures r.Shape()
  {
    var (s, m) := (w.m.sockets[p], w.m.(masks := w.m.masks[w.m.sockets[p].pos := CLOSED_ONLY]));
    if |m.idle| >= m.Slots() then w.(m := m.(fault := true))
    else w.(m := m.(idle := m.idle + [s.pos]), owners := w.owners + [s.fd])
  }

  /** A complete greeting from the connection at `p`: give it the oldest waiting
      client, or park it. */
  function OnIdle(w: World, p: nat, sendOk: bool): (r: World)
    requires w.Shape() && p < w.m.Slots() && w.m.sockets[p].kind == Backend
    ensures r.Shape()
  {
    var fd := w.m.sockets[p].fd;
    var w1 := w.(log := w.log + [Announced(fd)]);
    if |w1.m.jobs| > 0 then
      if sendOk then GiveJob(w1, fd) else Close(w1, p)
    else ParkAt(w1, p)
  }

  /** The common exit of on_backend(): the offset is an unsigned byte. */
  function AddToOffset(m: State, p: nat, received: int): (r: State)
    requires m.Shape() && p < m.Slots()
    ensures r.Shape()
  {
    m.(sockets := m.sockets[p := m.sockets[p].(readOffset := (m.sockets[p].readOffset + received) % 256)])
  }

  function Framed(m: State, p: nat, f: Framing): (r: State)
    requires m.Shape() && p < m.Slots() && |f.workerId| == 4
    ensures r.Shape()
  {
    m.(sockets := m.sockets[p := m.sockets[p].(readOffset := f.offset, workerId := f.workerId)])
  }

  function OnBackendReadable(w: World, p: nat, received: Option<seq<byte>>, broken: set<int>): (r: World)
    requires w.Shape() && p < w.m.Slots() && w.m.sockets[p].kind == Backend
    requires received.Some? && w.m.sockets[p].readOffset < FRAME ==> |received.value| <= FRAME - w.m.sockets[p].readOffset
    ensures r.Shape()
  {
    var s := w.m.sockets[p];
    if s.readOffset >= FRAME then
      w.(m := w.m.(masks := w.m.masks[s.pos := CLOSED_ONLY]))
    else if received.None? then
      // recv() failed: the socket is closed and zeroed, and then control reaches
      // the common exit with -1 received
      w.(m := AddToOffset(CloseSocket(w.m, p), p, -1))
    else
      match Receive(Framing(s.readOffset, s.workerId), received.value)
      case Rejected => Close(w, p)
      case Partial(f) => w.(m := Framed(w.m, p, f))
      case Complete(f) => OnIdle(w.(m := Framed(w.m, p, f)), p, s.fd !in broken)
  }

  function OnBackend(w: World, p: nat, e: Event): (r: World)
    requires w.Shape() && p < w.m.Slots() && w.m.sockets[p].kind == Backend
    requires Fits(w.m, e, p)
    ensures r.Shape()
  {
    if e.closed then Close(w, p)
    else if e.readable then OnBackendReadable(w, p, e.received, e.broken)
    else w
  }

  /** recv() never returns more than it was asked for. */
  predicate Fits(m: State, e: Event, p: nat)
    requires p < |m.sockets|
  {
    e.received.Some? && m.sockets[p].readOffset < FRAME ==> |e.received.value| <= FRAME - m.sockets[p].readOffset
  }

  function Keep(handles: seq<Option<int>>, stopped: set<int>): (r: seq<Option<int>>)
    ensures |r| == |handles|
    ensures forall i :: 0 <= i < |r| ==>
      r[i] == if handles[i].Some? && handles[i].value in stopped then None else handles[i]
  {
    seq(|handles|, i requires 0 <= i < |handles| =>
      if handles[i].Some? && handles[i].value in stopped then None else handles[i])
  }

  function Count(handles: seq<Option<int>>): nat {
    if handles == [] then 0 else Count(handles[1..]) + if handles[0].Some? then 1 else 0
  }

  function OnWorkerDied(w: World, stopped: set<int>): (r: World)
    requires w.Shape()
    ensures r.Shape()
  {
    var handles := Keep(w.m.handles, stopped);
    var workers := Count(handles);
    w.(m := if workers <= w.m.numWorkers then w.m.(handles := handles, numWorkers := workers)
            else w.m.(handles := handles, fault := true))
  }

  /** The latch part of handling an event, after some workers may have died. */
  function Latched(w: World, e: Event): (r: World)
    requires w.Shape()
    ensures r.Shape() && r.m.sockets == w.m.sockets && r.m.masks == w.m.masks && r.m.free == w.m.free
    ensures r.m.Slots() == w.m.Slots()
  {
    var w0 := w.(pending := w.pending - e.lost);
    if e.latch then OnWorkerDied(w0, e.stopped) else w0
  }

  /** The choice of a handler by the type of the socket. */
  function Handle(w: World, e: Event): (r: World)
    requires w.Shape() && e.slot < w.m.Slots() && Fits(w.m, e, e.slot)
    ensures r.Shape()
  {
    match w.m.sockets[e.slot].kind
    case Unset => w
    case Ipc => if e.readable && e.arrival.Some? then OnBackendConnect(w, e.arrival.value) else w
    case Frontend => if e.readable && e.arrival.Some? then OnFrontend(w, e.arrival.value, e.broken, e.registers) else w
    case Backend => OnBackend(w, e.slot, e)
  }

  /** The body of the event loop for one event. */
  function Deliver(w: World, e: Event): (r: World)
    requires w.Shape() && e.slot < w.m.Slots() && Fits(w.m, e, e.slot)
    ensures r.Shape()
  {
    Handle(Latched(w, e), e)
  }

  /** The socket and the interest at slot `k` once the slots below `hi` are taken. */
  function OpenedSocket(k: nat, hi: nat): Socket {
    if k >= hi || k == 0 then ZEROED
    else ZEROED.(kind := if k == 1 then Ipc else Frontend, pos := k)
  }

  function OpenedMask(k: nat, hi: nat): Interest {
    if k >= hi || k == 0 then LATCH_ONLY else ACCEPTING
  }

  /** The state `startup` leaves: latch, IPC socket and listening sockets take the
      first slots in order.  The descriptors of the listening sockets are left out. */
  function Startup(listeners: nat, maxWorkers: nat): (r: World)
    requires maxWorkers >= 1
    ensures r.Shape()
  {
    var n := 1 + listeners + maxWorkers;
    var f := 2 + listeners;
    World(
      State(listeners, maxWorkers,
        seq(n, (k: nat) => OpenedSocket(k, f)), seq(n, (k: nat) => OpenedMask(k, f)), seq(n - f, (k: nat) => f + k),
        [], [], false, seq(maxWorkers, k => None), 0, 0, false),
      {}, [], [])
  }
}
