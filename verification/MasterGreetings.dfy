/** When a worker that connects and greets is heard, over whole runs. */
module MasterGreetings {
  import opened Base
  import opened Hello
  import opened Handshake
  import opened MasterModel
  import opened MasterInv
  import opened MasterSteps
  import opened MasterRuns
  import opened MasterTheorems

  // ---------------------------------------------------------------- what a closed slot passes on

  /** Event `e` ends the connection at `p` by a failed recv, if it ends it. */
  predicate FailedRecv(e: Event, p: nat) {
    e.slot == p && !e.closed && e.received.None?
  }

  /** The slots whose last connection ended in a failed recv, after one more event. */
  ghost function Mark(w: World, e: Event, was: set<nat>): (r: set<nat>)
    requires EnvironmentOk(w, e)
    ensures forall p: nat :: p < |w.m.sockets| ==>
      (p in r <==> if IsBackend(w.m, p) && !IsBackend(Deliver(w, e).m, p) then FailedRecv(e, p) else p in was)
  {
    set p: nat | p < |w.m.sockets| && if IsBackend(w.m, p) && !IsBackend(Deliver(w, e).m, p) then FailedRecv(e, p) else p in was
  }

  ghost function MarkAll(w: World, batch: seq<Event>, was: set<nat>): set<nat>
    requires Admitted(w, batch)
    decreases |batch|
  {
    if batch == [] then was else MarkAll(Deliver(w, batch[0]), batch[1..], Mark(w, batch[0], was))
  }

  ghost function MarkRun(w: World, batches: seq<seq<Event>>, was: set<nat>): set<nat>
    requires w.Shape() && IsRun(w, batches)
    decreases |batches|
  {
    if batches == [] then was else MarkRun(HandleAll(w, batches[0]), batches[1..], MarkAll(w, batches[0], was))
  }

  /** The slots whose last connection in this run ended in a failed recv. */
  ghost function FailedSlots(run: Run, w: World): set<nat>
    requires Reaches(run, w)
  {
    MarkAll(AtPoll(run), run.last[..run.done], MarkRun(Startup(run.listeners, run.maxWorkers), run.batches, {}))
  }

  /** The offset of an empty slot tells how its last connection ended. */
  predicate LeftBy(s: Socket, failed: bool) {
    s.kind == Unset ==> s.readOffset == if failed then 255 else 0
  }

  ghost predicate Marked(w: World, failed: set<nat>) {
    forall p: nat :: p < |w.m.sockets| ==> LeftBy(w.m.sockets[p], p in failed)
  }

  lemma {:induction false} DrainZeroes(w: World, c: int, broken: set<int>, q: nat)
    requires w.Shape() && q < w.m.Slots()
    ensures |Drain(w, c, broken).0.m.sockets| == |w.m.sockets|
    ensures Drain(w, c, broken).0.m.sockets[q] == w.m.sockets[q] || (IsBackend(w.m, q) && Drain(w, c, broken).0.m.sockets[q] == ZEROED)
    decreases |w.m.idle|
  {
    if w.m.idle != [] {
      var p := w.m.idle[0];
      var w1 := PopIdle(w);
      if w1.m.sockets[p].kind != Backend {
        DrainZeroes(w1, c, broken, q);
      } else if w1.m.sockets[p].fd in broken {
        DrainZeroes(Close(w1, p), c, broken, q);
      }
    }
  }

  /** Spawning and queueing touch no slot and no idle entry. */
  lemma UnplacedSpares(w: World, c: int, registers: bool)
    requires w.Shape()
    ensures var r := Enqueue(Spawn(w, registers), c);
      r.m.sockets == w.m.sockets && r.m.idle == w.m.idle && w.log <= r.log
  {
    var w1 := Spawn(w, registers);
    assert w1.m.sockets == w.m.sockets && w1.m.idle == w.m.idle && w1.log == w.log;
  }

  lemma FrontendZeroes(w: World, c: int, broken: set<int>, registers: bool, q: nat)
    requires w.Shape() && q < w.m.Slots()
    ensures var r := OnFrontend(w, c, broken, registers).m.sockets;
      |r| == |w.m.sockets| && (r[q] == w.m.sockets[q] || (IsBackend(w.m, q) && r[q] == ZEROED))
  {
    var w0 := w.(log := w.log + [Accepted(c)]);
    DrainZeroes(w0, c, broken, q);
    UnplacedSpares(Drain(w0, c, broken).0, c, registers);
  }

  lemma IdleLeaves(w: World, p: nat, sendOk: bool, q: nat)
    requires w.Shape() && IsBackend(w.m, p) && q < w.m.Slots()
    ensures var r := OnIdle(w, p, sendOk).m.sockets;
      |r| == |w.m.sockets| && (r[q] == w.m.sockets[q] || (q == p && r[q] == ZEROED))
  {
  }

  lemma ReadableLeaves(w: World, p: nat, received: Option<seq<byte>>, broken: set<int>, q: nat)
    requires w.Shape() && IsBackend(w.m, p) && q < w.m.Slots()
    requires received.Some? && w.m.sockets[p].readOffset < FRAME ==> |received.value| <= FRAME - w.m.sockets[p].readOffset
    ensures var r := OnBackendReadable(w, p, received, broken).m.sockets;
      && |r| == |w.m.sockets|
      && (q != p ==> r[q] == w.m.sockets[q])
      && (q == p ==> LeftBy(r[q], received.None?))
  {
    var s := w.m.sockets[p];
    if s.readOffset < FRAME && received.Some? {
      match Receive(Framing(s.readOffset, s.workerId), received.value)
      case Rejected =>
      case Partial(f) =>
      case Complete(f) =>
        IdleLeaves(w.(m := Framed(w.m, p, f)), p, s.fd !in broken, q);
    }
  }

  /** A slot that an event leaves empty was empty before, or lost its connection. */
  lemma HandleLeaves(w: World, e: Event, q: nat)
    requires w.Shape() && e.slot < w.m.Slots() && Fits(w.m, e, e.slot) && q < w.m.Slots()
    ensures var r := Handle(w, e).m.sockets;
      && |r| == |w.m.sockets|
      && if IsBackend(w.m, q) then LeftBy(r[q], FailedRecv(e, q)) else r[q].kind == Unset ==> r[q] == w.m.sockets[q]
  {
    match w.m.sockets[e.slot].kind
    case Unset =>
    case Ipc =>
    case Frontend =>
      if e.readable && e.arrival.Some? {
        FrontendZeroes(w, e.arrival.value, e.broken, e.registers, q);
      }
    case Backend =>
      if !e.closed && e.readable {
        ReadableLeaves(w, e.slot, e.received, e.broken, q);
      }
  }

  lemma SlotIsMarked(w: World, e: Event, was: set<nat>, q: nat)
    requires EnvironmentOk(w, e) && q < |w.m.sockets| && LeftBy(w.m.sockets[q], q in was)
    ensures |Deliver(w, e).m.sockets| == |w.m.sockets|
    ensures LeftBy(Deliver(w, e).m.sockets[q], q in Mark(w, e, was))
  {
    HandleLeaves(Latched(w, e), e, q);
  }

  lemma MarkStep(w: World, e: Event, was: set<nat>)
    requires EnvironmentOk(w, e) && Marked(w, was)
    ensures Marked(Deliver(w, e), Mark(w, e, was))
  {
    forall q: nat | q < |Deliver(w, e).m.sockets| ensures LeftBy(Deliver(w, e).m.sockets[q], q in Mark(w, e, was)) {
      SlotIsMarked(w, e, was, if q < |w.m.sockets| then q else 0);
    }
  }

  lemma {:induction false} MarkAllKeeps(w: World, batch: seq<Event>, was: set<nat>)
    requires w.Shape() && Admitted(w, batch) && Marked(w, was)
    ensures Marked(HandleAll(w, batch), MarkAll(w, batch, was))
    decreases |batch|
  {
    if batch != [] {
      MarkStep(w, batch[0], was);
      MarkAllKeeps(Deliver(w, batch[0]), batch[1..], Mark(w, batch[0], was));
    }
  }

  lemma {:induction false} MarkRunKeeps(w: World, batches: seq<seq<Event>>, was: set<nat>)
    requires w.Shape() && IsRun(w, batches) && Marked(w, was)
    ensures Marked(End(w, batches), MarkRun(w, batches, was))
    decreases |batches|
  {
    if batches != [] {
      MarkAllKeeps(w, batches[0], was);
      MarkRunKeeps(HandleAll(w, batches[0]), batches[1..], MarkAll(w, batches[0], was));
    }
  }

  /** In every reachable state, the offset that an empty slot will start its next
      connection from is 255 exactly if its last one ended in a failed recv. */
  lemma ResidueIffFailed(run: Run, w: World, p: nat)
    requires Reaches(run, w) && p < |w.m.sockets| && w.m.sockets[p].kind == Unset
    ensures w.m.sockets[p].readOffset == if p in FailedSlots(run, w) then 255 else 0
  {
    var start := Startup(run.listeners, run.maxWorkers);
    MarkRunKeeps(start, run.batches, {});
    MarkAllKeeps(AtPoll(run), run.last[..run.done], MarkRun(start, run.batches, {}));
  }

  // ---------------------------------------------------------------- what a worker's bytes lead to

  /** Events that may follow one another, in which what comes from slot `p` is bytes. */
  ghost predicate Turns(w: World, p: nat, events: seq<Event>)
    decreases |events|
  {
    events == [] ||
    var e := events[0];
    && EnvironmentOk(w, e) && Fresh(w, e)
    && (e.slot == p ==> e.readable && !e.closed && e.received.Some?)
    && Turns(Deliver(w, e), p, events[1..])
  }

  /** The bytes that come from slot `p`, in the pieces of the events. */
  function Bytes(p: nat, events: seq<Event>): seq<byte> {
    if events == [] then []
    else (if events[0].slot == p && events[0].received.Some? then events[0].received.value else []) + Bytes(p, events[1..])
  }

  /** Worker `x` is announced while it holds slot `p`. */
  ghost predicate Heard(w: World, x: int, p: nat, events: seq<Event>)
    decreases |events|
  {
    && events != [] && EnvironmentOk(w, events[0])
    && IsBackend(w.m, p) && w.m.sockets[p].fd == x
    && (|| w.log + [Announced(x)] <= Deliver(w, events[0]).log
        || Heard(Deliver(w, events[0]), x, p, events[1..]))
  }

  /** Worker `x` holds slot `p`, busy. */
  ghost predicate Holds(w: World, x: int, p: nat) {
    Inv(w) && IsBackend(w.m, p) && w.m.sockets[p].fd == x && p !in w.m.idle
  }

  lemma {:induction false} DrainSpares(w: World, c: int, broken: set<int>, p: nat)
    requires w.Shape() && IsBackend(w.m, p) && p !in w.m.idle
    ensures var r := Drain(w, c, broken).0;
      w.log <= r.log && IsBackend(r.m, p) && r.m.sockets[p] == w.m.sockets[p] && p !in r.m.idle
    decreases |w.m.idle|
  {
    if w.m.idle != [] {
      var q := w.m.idle[0];
      var w1 := PopIdle(w);
      if w1.m.sockets[q].kind != Backend {
        DrainSpares(w1, c, broken, p);
      } else if w1.m.sockets[q].fd in broken {
        DrainSpares(Close(w1, q), c, broken, p);
      }
    }
  }

  /** Nothing but an entry of the history that is not `x`'s announcement follows. */
  predicate Silent(w: World, r: World, x: int) {
    r.log == w.log || (|r.log| > |w.log| && r.log[|w.log|] != Announced(x))
  }

  lemma FrontendSpares(w: World, c: int, broken: set<int>, registers: bool, x: int, p: nat)
    requires w.Shape() && IsBackend(w.m, p) && p !in w.m.idle
    ensures var r := OnFrontend(w, c, broken, registers);
      Silent(w, r, x) && IsBackend(r.m, p) && r.m.sockets[p] == w.m.sockets[p] && p !in r.m.idle
  {
    var w0 := w.(log := w.log + [Accepted(c)]);
    DrainSpares(w0, c, broken, p);
    var w1 := Drain(w0, c, broken).0;
    UnplacedSpares(w1, c, registers);
    AcceptedFirst(w.log, c, OnFrontend(w, c, broken, registers).log, x);
  }

  lemma AcceptedFirst(log: seq<Entry>, c: int, later: seq<Entry>, x: int)
    requires log + [Accepted(c)] <= later
    ensures |later| > |log| && later[|log|] != Announced(x)
  {
    assert later[|log|] == (log + [Accepted(c)])[|log|];
  }

  lemma IdleSpares(w: World, q: nat, sendOk: bool, x: int, p: nat)
    requires w.Shape() && IsBackend(w.m, q) && IsBackend(w.m, p) && q != p && w.m.sockets[q].fd != x && p !in w.m.idle
    ensures var r := OnIdle(w, q, sendOk);
      Silent(w, r, x) && IsBackend(r.m, p) && r.m.sockets[p] == w.m.sockets[p] && p !in r.m.idle
  {
    assert OnIdle(w, q, sendOk).log[|w.log|] == Announced(w.m.sockets[q].fd);
  }

  lemma ReadableSpares(w: World, q: nat, received: seq<byte>, broken: set<int>, x: int, p: nat)
    requires w.Shape() && IsBackend(w.m, q) && IsBackend(w.m, p) && q != p && w.m.sockets[q].fd != x && p !in w.m.idle
    requires w.m.sockets[q].readOffset < FRAME && |received| <= FRAME - w.m.sockets[q].readOffset
    ensures var r := OnBackendReadable(w, q, Some(received), broken);
      Silent(w, r, x) && IsBackend(r.m, p) && r.m.sockets[p] == w.m.sockets[p] && p !in r.m.idle
  {
    var s := w.m.sockets[q];
    match Receive(Framing(s.readOffset, s.workerId), received)
    case Rejected =>
    case Partial(f) =>
    case Complete(f) =>
      IdleSpares(w.(m := Framed(w.m, q, f)), q, s.fd !in broken, x, p);
  }

  lemma BackendSpares(w: World, e: Event, x: int, p: nat)
    requires w.Shape() && IsBackend(w.m, e.slot) && IsBackend(w.m, p) && e.slot != p && Fits(w.m, e, e.slot)
    requires w.m.sockets[e.slot].fd != x && p !in w.m.idle
    ensures var r := OnBackend(w, e.slot, e);
      Silent(w, r, x) && IsBackend(r.m, p) && r.m.sockets[p] == w.m.sockets[p] && p !in r.m.idle
  {
    if !e.closed && e.readable && w.m.sockets[e.slot].readOffset < FRAME && e.received.Some? {
      ReadableSpares(w, e.slot, e.received.value, e.broken, x, p);
    }
  }

  /** Other slots' events leave the connection and its worker's silence alone. */
  lemma OthersSpare(w: World, e: Event, x: int, p: nat)
    requires Holds(w, x, p) && EnvironmentOk(w, e) && Fresh(w, e) && e.slot != p
    ensures Holds(Deliver(w, e), x, p) && Deliver(w, e).m.sockets[p] == w.m.sockets[p]
    ensures !(w.log + [Announced(x)] <= Deliver(w, e).log)
  {
    DeliverKeeps(w, e);
    var w1 := Latched(w, e);
    assert IsBackend(w1.m, e.slot) ==> w1.m.sockets[e.slot].fd != x by {
      assert IsBackend(w.m, e.slot) ==> w.m.sockets[e.slot].fd != w.m.sockets[p].fd;
    }
    OtherHandled(w1, e, x, p);
    SilentIsSilent(w, w1, Deliver(w, e), x);
  }

  lemma SilentIsSilent(w: World, w1: World, r: World, x: int)
    requires w1.log == w.log && Silent(w1, r, x)
    ensures !(w.log + [Announced(x)] <= r.log)
  {
    assert (w.log + [Announced(x)])[|w.log|] == Announced(x);
  }

  lemma OtherHandled(w: World, e: Event, x: int, p: nat)
    requires w.Shape() && e.slot < w.m.Slots() && Fits(w.m, e, e.slot) && e.slot != p
    requires IsBackend(w.m, p) && p !in w.m.idle && p !in w.m.free
    requires IsBackend(w.m, e.slot) ==> w.m.sockets[e.slot].fd != x
    ensures var r := Handle(w, e);
      Silent(w, r, x) && IsBackend(r.m, p) && r.m.sockets[p] == w.m.sockets[p] && p !in r.m.idle
  {
    match w.m.sockets[e.slot].kind
    case Unset =>
    case Ipc =>
    case Frontend =>
      if e.readable && e.arrival.Some? {
        FrontendSpares(w, e.arrival.value, e.broken, e.registers, x, p);
      }
    case Backend =>
      BackendSpares(w, e, x, p);
  }

  // ---------------------------------------------------------------- the theorem

  /** A connection that started at 255 is not heard, whatever it sends. */
  lemma {:induction false} MutedIsNotHeard(w: World, x: int, p: nat, events: seq<Event>)
    requires Holds(w, x, p) && w.m.sockets[p].readOffset == 255 && Turns(w, p, events)
    ensures !Heard(w, x, p, events)
    decreases |events|
  {
    if events != [] {
      var e := events[0];
      if e.slot == p {
        DeliverKeeps(w, e);
        MutedStays(w, e, p);
      } else {
        OthersSpare(w, e, x, p);
      }
      MutedIsNotHeard(Deliver(w, e), x, p, events[1..]);
    }
  }

  lemma MutedStays(w: World, e: Event, p: nat)
    requires w.Shape() && EnvironmentOk(w, e) && e.slot == p && IsBackend(w.m, p) && w.m.sockets[p].readOffset == 255
    requires e.readable && !e.closed
    ensures var r := Deliver(w, e); r.log == w.log && r.m.sockets == w.m.sockets && r.m.idle == w.m.idle
  {
  }

  /** One receive on a connection that is listened to. */
  lemma OneReceive(w: World, e: Event, p: nat, f: Framing, got: seq<byte>)
    requires w.Shape() && EnvironmentOk(w, e) && e.slot == p && IsBackend(w.m, p)
    requires e.readable && !e.closed && e.received.Some?
    requires f == Framing(w.m.sockets[p].readOffset, w.m.sockets[p].workerId) && Tracks(f, got)
    ensures var (r, next) := (Deliver(w, e), got + e.received.value);
      if !Greets(next) then r.log == w.log && !IsBackend(r.m, p)
      else if |next| >= FRAME then w.log + [Announced(w.m.sockets[p].fd)] <= r.log
      else
        && r.log == w.log && r.m.idle == w.m.idle
        && IsBackend(r.m, p) && r.m.sockets[p].fd == w.m.sockets[p].fd
        && Tracks(Framing(r.m.sockets[p].readOffset, r.m.sockets[p].workerId), next)
  {
    ReceiveTracks(f, got, e.received.value);
    var w1 := Latched(w, e);
    match Receive(f, e.received.value)
    case Rejected =>
    case Partial(g) =>
    case Complete(g) =>
      IdleLogs(w1.(m := Framed(w1.m, p, g)), p, w1.m.sockets[p].fd !in e.broken);
  }

  lemma IdleLogs(w: World, p: nat, sendOk: bool)
    requires w.Shape() && p < w.m.Slots() && w.m.sockets[p].kind == Backend
    ensures w.log + [Announced(w.m.sockets[p].fd)] <= OnIdle(w, p, sendOk).log
  {
  }

  /** More bytes do not change what the first ones decided. */
  lemma GreetsMore(got: seq<byte>, more: seq<byte>)
    ensures Greets(got + more) ==> Greets(got)
    ensures |got| >= 8 && Greets(got) ==> Greets(got + more)
  {
    forall k | 0 <= k < |got| ensures (got + more)[k] == got[k] {
    }
  }

  /** The bytes of a whole greeting. */
  predicate IsGreeting(bytes: seq<byte>) {
    Greets(bytes) && |bytes| >= FRAME
  }

  /** `x` is listened to at `p`, and `got` is what has come of its greeting. */
  ghost predicate Listened(w: World, x: int, p: nat, got: seq<byte>) {
    && Holds(w, x, p)
    && w.m.sockets[p].readOffset < FRAME
    && Tracks(Framing(w.m.sockets[p].readOffset, w.m.sockets[p].workerId), got)
  }

  /** A piece of the greeting decides, or leaves the connection listened to. */
  lemma OnePiece(w: World, x: int, p: nat, events: seq<Event>, got: seq<byte>)
    requires Listened(w, x, p, got) && Turns(w, p, events) && events != [] && events[0].slot == p
    ensures var next := got + events[0].received.value;
      if Greets(next) && |next| < FRAME then
        && Listened(Deliver(w, events[0]), x, p, next)
        && (Heard(w, x, p, events) <==> Heard(Deliver(w, events[0]), x, p, events[1..]))
      else Heard(w, x, p, events) <==> Greets(next)
  {
    OneReceive(w, events[0], p, Framing(w.m.sockets[p].readOffset, w.m.sockets[p].workerId), got);
    DeliverKeeps(w, events[0]);
  }

  /** The bytes so far and then the next piece. */
  lemma BytesOn(p: nat, events: seq<Event>, got: seq<byte>)
    requires events != []
    ensures events[0].slot == p && events[0].received.Some? ==>
      var next := got + events[0].received.value;
      && got + Bytes(p, events) == next + Bytes(p, events[1..])
      && (!Greets(next) ==> !IsGreeting(got + Bytes(p, events)))
      && (|next| >= FRAME && Greets(next) ==> IsGreeting(got + Bytes(p, events)))
    ensures events[0].slot != p ==> Bytes(p, events) == Bytes(p, events[1..])
  {
    if events[0].slot == p && events[0].received.Some? {
      GreetsMore(got + events[0].received.value, Bytes(p, events[1..]));
      assert got + Bytes(p, events) == got + events[0].received.value + Bytes(p, events[1..]);
    }
  }

  /** Another slot's event changes nothing about what `x` has sent. */
  lemma OtherPiece(w: World, x: int, p: nat, events: seq<Event>, got: seq<byte>)
    requires Listened(w, x, p, got) && Turns(w, p, events) && events != [] && events[0].slot != p
    ensures Listened(Deliver(w, events[0]), x, p, got)
    ensures Heard(w, x, p, events) <==> Heard(Deliver(w, events[0]), x, p, events[1..])
  {
    OthersSpare(w, events[0], x, p);
  }

  /** A connection that is listened to is heard exactly when its bytes have become a
      whole greeting. */
  lemma {:induction false} ListenedIsHeardIff(w: World, x: int, p: nat, events: seq<Event>, got: seq<byte>)
    requires Listened(w, x, p, got) && Turns(w, p, events)
    ensures Heard(w, x, p, events) <==> IsGreeting(got + Bytes(p, events))
    decreases |events|
  {
    if events == [] {
      assert got + [] == got;
    } else {
      BytesOn(p, events, got);
      if events[0].slot != p {
        OtherPiece(w, x, p, events, got);
        ListenedIsHeardIff(Deliver(w, events[0]), x, p, events[1..], got);
      } else {
        var next := got + events[0].received.value;
        OnePiece(w, x, p, events, got);
        if Greets(next) && |next| < FRAME {
          ListenedIsHeardIff(Deliver(w, events[0]), x, p, events[1..], next);
        }
      }
    }
  }

  /** A worker that has just connected. */
  lemma JustConnected(w: World, x: int)
    requires Inv(w) && x in w.pending
    ensures w.m.free != []
    ensures var (p, r) := (w.m.free[0], OnBackendConnect(w, x));
      Holds(r, x, p) && r.m.sockets[p].readOffset == w.m.sockets[p].readOffset && |r.m.sockets[p].workerId| == 4
  {
    ConnectKeeps(w, x);
    var r := OnBackendConnect(w, x);
    assert w.m.sockets[w.m.free[0]].kind == Unset;
    forall k | 0 <= k < |w.m.idle| ensures w.m.idle[k] != w.m.free[0] {
      assert Names(w, k);
    }
  }

  /** A connection that starts at 0 or 255. */
  lemma FreshIsHeardIff(w: World, x: int, p: nat, events: seq<Event>, failed: bool)
    requires Holds(w, x, p) && Turns(w, p, events) && |w.m.sockets[p].workerId| == 4
    requires w.m.sockets[p].readOffset == if failed then 255 else 0
    ensures Heard(w, x, p, events) <==> IsGreeting(Bytes(p, events)) && !failed
  {
    if failed {
      MutedIsNotHeard(w, x, p, events);
    } else {
      ListenedIsHeardIff(w, x, p, events, []);
      assert [] + Bytes(p, events) == Bytes(p, events);
    }
  }

  /** The property that fails: a worker that connects and sends its greeting is
      heard.  Whatever else happens meanwhile and however its bytes are cut, it is
      heard exactly if they make a greeting and the slot it got was not left by a
      failed recv. */
  lemma GreetingHeardIff(run: Run, w: World, x: int, events: seq<Event>)
    requires Reaches(run, w) && x in w.pending
    ensures w.m.free != []
    ensures var (p, r) := (w.m.free[0], OnBackendConnect(w, x));
      Turns(r, p, events) ==>
      (Heard(r, x, p, events) <==> IsGreeting(Bytes(p, events)) && p !in FailedSlots(run, w))
  {
    ReachedIsSafe(run, w);
    JustConnected(w, x);
    var (p, r) := (w.m.free[0], OnBackendConnect(w, x));
    ResidueIffFailed(run, w, p);
    if Turns(r, p, events) {
      FreshIsHeardIff(r, x, p, events, p in FailedSlots(run, w));
    }
  }
}
