/** Whole runs of the dispatcher: wake-ups of the event loop, each a batch of
    events that were all reported before the first of them is handled. */
module MasterRuns {
  import opened Base
  import opened Hello
  import opened MasterModel
  import opened MasterInv
  import opened MasterSteps

  /** The wait set reports only occupied positions, for events they are armed for. */
  predicate Reports(m: State, e: Event) {
    && e.slot < |m.sockets| && e.slot < |m.masks|
    && e.slot !in m.free
    && (e.readable ==> m.masks[e.slot].readable)
    && (e.closed ==> m.masks[e.slot].closed)
    && (e.latch ==> e.slot == 0)
  }

  ghost predicate Polled(m: State, batch: seq<Event>) {
    && (forall i :: 0 <= i < |batch| ==> Reports(m, batch[i]))
    && (forall i, j :: 0 <= i < j < |batch| ==> batch[i].slot != batch[j].slot)
  }

  /** The environment assumptions hold at each event as its turn comes. */
  ghost predicate Admitted(w: World, batch: seq<Event>)
    decreases |batch|
  {
    batch == [] || (EnvironmentOk(w, batch[0]) && Admitted(Deliver(w, batch[0]), batch[1..]))
  }

  ghost function HandleAll(w: World, batch: seq<Event>): (r: World)
    requires w.Shape() && Admitted(w, batch)
    ensures r.Shape()
    decreases |batch|
  {
    if batch == [] then w else HandleAll(Deliver(w, batch[0]), batch[1..])
  }

  ghost predicate IsRun(w: World, batches: seq<seq<Event>>)
    requires w.Shape()
    decreases |batches|
  {
    batches == [] ||
    (Polled(w.m, batches[0]) && Admitted(w, batches[0]) && IsRun(HandleAll(w, batches[0]), batches[1..]))
  }

  ghost function End(w: World, batches: seq<seq<Event>>): (r: World)
    requires w.Shape() && IsRun(w, batches)
    ensures r.Shape()
    decreases |batches|
  {
    if batches == [] then w else End(HandleAll(w, batches[0]), batches[1..])
  }

  // ---------------------------------------------------------------- what one event leaves alone

  /** Slot `q` still has its owner, and a backend still delivers bytes if it did;
      or its connection was closed and nobody took the slot. */
  predicate Unmoved(a: State, b: State, q: nat) {
    && q < |a.sockets| == |b.sockets| == |a.masks| == |b.masks|
    && a.Slots() == b.Slots()
    && (|| (&& b.sockets[q].kind == a.sockets[q].kind
            && b.sockets[q].fd == a.sockets[q].fd
            && (IsBackend(a, q) && a.masks[q].readable ==> b.masks[q].readable))
        || (IsBackend(a, q) && b.sockets[q].kind == Unset))
  }

  /** Nothing but slot `e` can have been taken, and the free ring only grew. */
  predicate OnlyFrees(a: State, b: State, q: nat) {
    Unmoved(a, b, q) && a.free <= b.free
  }

  lemma {:induction false} DrainFrame(w: World, c: int, broken: set<int>, q: nat)
    requires w.Shape() && q < w.m.Slots()
    ensures OnlyFrees(w.m, Drain(w, c, broken).0.m, q)
    decreases |w.m.idle|
  {
    if w.m.idle != [] {
      var p := w.m.idle[0];
      var w1 := PopIdle(w);
      if w1.m.sockets[p].kind != Backend {
        DrainFrame(w1, c, broken, q);
      } else if w1.m.sockets[p].fd in broken {
        DrainFrame(Close(w1, p), c, broken, q);
      }
    }
  }

  lemma SpawnFrame(w: World, registers: bool, q: nat)
    requires w.Shape() && q < w.m.Slots()
    ensures OnlyFrees(w.m, Spawn(w, registers).m, q)
  {
  }

  lemma EnqueueFrame(w: World, c: int, q: nat)
    requires w.Shape() && q < w.m.Slots()
    ensures OnlyFrees(w.m, Enqueue(w, c).m, q)
  {
  }

  lemma ClientFrame(w: World, c: int, broken: set<int>, registers: bool, q: nat)
    requires w.Shape() && q < w.m.Slots()
    ensures OnlyFrees(w.m, OnFrontend(w, c, broken, registers).m, q)
  {
    var w0 := w.(log := w.log + [Accepted(c)]);
    DrainFrame(w0, c, broken, q);
    var (w1, done) := Drain(w0, c, broken);
    if !done {
      SpawnFrame(w1, registers, q);
      EnqueueFrame(Spawn(w1, registers), c, q);
    }
  }

  lemma IdleFrame(w: World, p: nat, sendOk: bool, q: nat)
    requires w.Shape() && p < w.m.Slots() && q < w.m.Slots() && w.m.sockets[p].kind == Backend && q != p
    ensures OnlyFrees(w.m, OnIdle(w, p, sendOk).m, q)
  {
  }

  lemma ReadableFrame(w: World, p: nat, received: Option<seq<byte>>, broken: set<int>, q: nat)
    requires w.Shape() && p < w.m.Slots() && q < w.m.Slots() && w.m.sockets[p].kind == Backend && q != p
    requires received.Some? && w.m.sockets[p].readOffset < FRAME ==> |received.value| <= FRAME - w.m.sockets[p].readOffset
    ensures OnlyFrees(w.m, OnBackendReadable(w, p, received, broken).m, q)
  {
    var s := w.m.sockets[p];
    if s.readOffset < FRAME && received.Some? {
      match Receive(Framing(s.readOffset, s.workerId), received.value)
      case Rejected =>
      case Partial(f) =>
      case Complete(f) =>
        IdleFrame(w.(m := Framed(w.m, p, f)), p, s.fd !in broken, q);
    }
  }

  lemma BackendFrame(w: World, e: Event, q: nat)
    requires w.Shape() && e.slot < w.m.Slots() && q < w.m.Slots() && w.m.sockets[e.slot].kind == Backend
    requires Fits(w.m, e, e.slot) && q != e.slot
    ensures OnlyFrees(w.m, OnBackend(w, e.slot, e).m, q)
  {
    if !e.closed && e.readable {
      ReadableFrame(w, e.slot, e.received, e.broken, q);
    }
  }

  lemma DeliverFrame(w: World, e: Event, q: nat)
    requires w.Shape() && e.slot < w.m.Slots() && Fits(w.m, e, e.slot) && q != e.slot && q < w.m.Slots()
    requires w.m.sockets[e.slot].kind == Ipc ==> w.m.free == [] || q != w.m.free[0]
    ensures Unmoved(w.m, Deliver(w, e).m, q)
    ensures w.m.sockets[e.slot].kind != Ipc ==> w.m.free <= Deliver(w, e).m.free
  {
    var w1 := Latched(w, e);
    match w1.m.sockets[e.slot].kind
    case Unset =>
    case Ipc =>
    case Frontend =>
      if e.readable && e.arrival.Some? {
        ClientFrame(w1, e.arrival.value, e.broken, e.registers, q);
      }
    case Backend =>
      BackendFrame(w1, e, q);
  }

  // ---------------------------------------------------------------- one batch

  /** Some events of a batch polled in `a` are still to be handled in `b`: their
      slots have not changed hands, and the slot the next worker will get is the
      one it would have got in `a`. */
  ghost predicate Ahead(a: World, b: World, rest: seq<Event>) {
    && Polled(a.m, rest)
    && (forall i :: 0 <= i < |rest| ==> Unmoved(a.m, b.m, rest[i].slot))
    && ((exists i :: 0 <= i < |rest| && rest[i].slot == 1) && a.m.free != [] ==> b.m.free != [] && b.m.free[0] == a.m.free[0])
  }

  lemma AheadIsFresh(a: World, b: World, rest: seq<Event>)
    requires Ahead(a, b, rest) && rest != []
    ensures Fresh(b, rest[0])
  {
    assert Reports(a.m, rest[0]);
  }

  /** The slot an accept takes belongs to no event of the batch. */
  lemma NextSlotIsQuiet(a: World, b: World, rest: seq<Event>, i: nat)
    requires Inv(a) && Inv(b) && Ahead(a, b, rest) && i < |rest|
    requires EnvironmentOk(b, rest[0]) && rest[0].slot == 1
    ensures b.m.free == [] || rest[i].slot != b.m.free[0]
  {
    assert Reports(a.m, rest[i]);
    SlotsSuffice(a);
    SlotsSuffice(b);
    SlotsPartition(a.m);
    SlotsPartition(b.m);
  }

  lemma StepKeepsOwner(a: World, b: World, rest: seq<Event>, i: nat)
    requires Inv(a) && Inv(b) && Ahead(a, b, rest) && 0 < i < |rest| && EnvironmentOk(b, rest[0])
    ensures Unmoved(a.m, Deliver(b, rest[0]).m, rest[i].slot)
  {
    assert Unmoved(a.m, b.m, rest[i].slot);
    if rest[0].slot == 1 {
      NextSlotIsQuiet(a, b, rest, i);
    }
    DeliverFrame(b, rest[0], rest[i].slot);
  }

  lemma StepKeepsHead(a: World, b: World, rest: seq<Event>, i: nat)
    requires Inv(a) && Inv(b) && Ahead(a, b, rest) && i + 1 < |rest| && rest[i + 1].slot == 1 && EnvironmentOk(b, rest[0])
    requires a.m.free != []
    ensures Deliver(b, rest[0]).m.free != [] && Deliver(b, rest[0]).m.free[0] == a.m.free[0]
  {
    assert rest[0].slot != 1;
    DeliverFrame(b, rest[0], 1);
  }

  lemma OwnersStay(a: World, b: World, rest: seq<Event>)
    requires Inv(a) && Inv(b) && Ahead(a, b, rest) && rest != [] && EnvironmentOk(b, rest[0])
    ensures forall i :: 0 < i < |rest| ==> Unmoved(a.m, Deliver(b, rest[0]).m, rest[i].slot)
  {
    forall i | 0 < i < |rest| ensures Unmoved(a.m, Deliver(b, rest[0]).m, rest[i].slot) {
      StepKeepsOwner(a, b, rest, i);
    }
  }

  lemma HeadStays(a: World, b: World, rest: seq<Event>)
    requires Inv(a) && Inv(b) && Ahead(a, b, rest) && rest != [] && EnvironmentOk(b, rest[0])
    ensures (exists i :: 0 < i < |rest| && rest[i].slot == 1) && a.m.free != [] ==>
      Deliver(b, rest[0]).m.free != [] && Deliver(b, rest[0]).m.free[0] == a.m.free[0]
  {
    if i :| 0 < i < |rest| && rest[i].slot == 1 && a.m.free != [] {
      StepKeepsHead(a, b, rest, i - 1);
    }
  }

  lemma AheadTail(a: World, b: World, c: World, rest: seq<Event>)
    requires Ahead(a, b, rest) && rest != []
    requires forall i :: 0 < i < |rest| ==> Unmoved(a.m, c.m, rest[i].slot)
    requires (exists i :: 0 < i < |rest| && rest[i].slot == 1) && a.m.free != [] ==> c.m.free != [] && c.m.free[0] == a.m.free[0]
    ensures Ahead(a, c, rest[1..])
  {
    var tail := rest[1..];
    assert forall i :: 0 <= i < |tail| ==> tail[i] == rest[i + 1];
  }

  lemma AheadStep(a: World, b: World, rest: seq<Event>)
    requires Inv(a) && Inv(b) && Ahead(a, b, rest) && rest != [] && EnvironmentOk(b, rest[0])
    ensures Ahead(a, Deliver(b, rest[0]), rest[1..])
  {
    OwnersStay(a, b, rest);
    HeadStays(a, b, rest);
    AheadTail(a, b, Deliver(b, rest[0]), rest);
  }

  /** The first event of what is left of a batch: it may be handled, and the others
      stay ahead. */
  lemma FirstEvent(a: World, b: World, rest: seq<Event>)
    requires Inv(a) && Inv(b) && Ahead(a, b, rest) && rest != [] && EnvironmentOk(b, rest[0])
    ensures Fresh(b, rest[0])
    ensures Inv(Deliver(b, rest[0])) && Ahead(a, Deliver(b, rest[0]), rest[1..])
  {
    AheadIsFresh(a, b, rest);
    DeliverKeeps(b, rest[0]);
    AheadStep(a, b, rest);
  }

  lemma {:induction false} BatchKeeps(a: World, b: World, rest: seq<Event>)
    requires Inv(a) && Inv(b) && Ahead(a, b, rest) && Admitted(b, rest)
    ensures Inv(HandleAll(b, rest))
    decreases |rest|
  {
    if rest != [] {
      FirstEvent(a, b, rest);
      BatchKeeps(a, Deliver(b, rest[0]), rest[1..]);
    }
  }

  lemma StartupTable(listeners: nat, maxWorkers: nat)
    requires maxWorkers >= 1
    ensures Table(Startup(listeners, maxWorkers).m)
  {
    var m := Startup(listeners, maxWorkers).m;
    forall p | m.Fixed() <= p < m.Slots() ensures p in m.free {
      assert m.free[p - m.Fixed()] == p;
    }
  }

  lemma StartupHolds(listeners: nat, maxWorkers: nat)
    requires maxWorkers >= 1
    ensures Inv(Startup(listeners, maxWorkers))
    ensures var w := Startup(listeners, maxWorkers);
      && (forall k :: 0 <= k < |w.m.free| ==> w.m.free[k] == 2 + listeners + k)
      && (forall p :: !IsBackend(w.m, p)) && w.m.idle == [] && w.m.jobs == [] && !w.m.paused
      && w.m.numWorkers == 0 && w.m.nextId == 0 && w.pending == {} && w.log == []
  {
    var w := Startup(listeners, maxWorkers);
    StartupTable(listeners, maxWorkers);
    EmptyCount(maxWorkers);
    assert w.m.handles == seq<Option<int>>(maxWorkers, i => None);
    assert forall p :: !IsBackend(w.m, p);
  }

  lemma {:induction false} EmptyCount(n: nat)
    ensures Count(seq(n, i => None)) == 0
  {
    if n > 0 {
      EmptyCount(n - 1);
      assert seq(n, i => None)[1..] == seq<Option<int>>(n - 1, i => None);
    }
  }

  lemma {:induction false} RunKeeps(w: World, batches: seq<seq<Event>>)
    requires Inv(w) && IsRun(w, batches)
    ensures Inv(End(w, batches))
    decreases |batches|
  {
    if batches != [] {
      BatchKeeps(w, w, batches[0]);
      RunKeeps(HandleAll(w, batches[0]), batches[1..]);
    }
  }
}
