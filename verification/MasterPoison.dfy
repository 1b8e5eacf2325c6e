/**
 A concrete run after which the next worker's greeting is not heard: one listening
 socket, three worker processes, and so room for one worker at a time.  The first
 worker's connection ends in a failed recv, a second worker comes and goes through
 the other slot, and a third is given the first slot again.
 */
module MasterPoison {
  import opened Base
  import opened Hello
  import opened MasterModel
  import opened MasterInv
  import opened MasterSteps
  import opened MasterRuns
  import opened MasterTheorems
  import opened MasterGreetings

  function At(slot: nat): Event {
    Event(slot, false, false, false, None, {}, true, None, {}, {})
  }

  /** A client, or a worker, on a listening socket. */
  function Arrives(slot: nat, who: int): Event {
    At(slot).(readable := true, arrival := Some(who))
  }

  function Died(worker: int): Event {
    At(0).(latch := true, stopped := {worker})
  }

  /** The first `n` clients, and their history. */
  function Clients(n: nat): (r: seq<int>)
    ensures |r| == n
  {
    if n == 0 then [] else Clients(n - 1) + [99 + n]
  }

  function History(n: nat): seq<Entry> {
    if n == 0 then [] else History(n - 1) + [Accepted(99 + n)]
  }

  /** The worlds of this run, by what varies in them. */
  function Snap(s3: Socket, s4: Socket, m3: Interest, m4: Interest, free: seq<nat>,
                clients: nat, handle: Option<int>, pending: set<int>): World
  {
    World(
      State(1, 3, [ZEROED, ZEROED.(kind := Ipc, pos := 1), ZEROED.(kind := Frontend, pos := 2), s3, s4],
             [LATCH_ONLY, ACCEPTING, ACCEPTING, m3, m4], free, [], Clients(clients), false,
             [handle, None, None], if handle.Some? then 1 else 0, clients, false),
      pending, [], History(clients))
  }

  const LEFT := ZEROED.(readOffset := 255)

  function Conn(worker: int, pos: nat): Socket {
    ZEROED.(kind := Backend, fd := worker, pos := pos)
  }

  const W0 := Snap(ZEROED, ZEROED, LATCH_ONLY, LATCH_ONLY, [3, 4], 0, None, {})
  const W1 := Snap(ZEROED, ZEROED, LATCH_ONLY, LATCH_ONLY, [3, 4], 1, Some(0), {0})
  const W2 := Snap(Conn(0, 3), ZEROED, READING, LATCH_ONLY, [4], 1, Some(0), {})
  const W3 := Snap(LEFT, ZEROED, READING, LATCH_ONLY, [4, 3], 1, Some(0), {})
  const W4 := Snap(LEFT, ZEROED, READING, LATCH_ONLY, [4, 3], 1, None, {})
  const W5 := Snap(LEFT, ZEROED, READING, LATCH_ONLY, [4, 3], 2, Some(1), {1})
  const W6 := Snap(LEFT, Conn(1, 4), READING, READING, [3], 2, Some(1), {})
  const W7 := Snap(LEFT, ZEROED, READING, READING, [3, 4], 2, Some(1), {})
  const W8 := Snap(LEFT, ZEROED, READING, READING, [3, 4], 2, None, {})
  const W9 := Snap(LEFT, ZEROED, READING, READING, [3, 4], 3, Some(2), {2})

  /** A wake-up with the single event `e`. */
  ghost predicate Wakes(w: World, e: Event, r: World) {
    w.Shape() && Polled(w.m, [e]) && EnvironmentOk(w, e) && Deliver(w, e) == r
  }

  lemma Prepend(w: World, e: Event, r: World, batches: seq<seq<Event>>)
    requires Wakes(w, e, r) && r.Shape() && IsRun(r, batches)
    ensures IsRun(w, [[e]] + batches) && End(w, [[e]] + batches) == End(r, batches)
  {
    assert ([[e]] + batches)[1..] == batches;
    assert [e][1..] == [];
    assert HandleAll(w, [e]) == r;
  }

  /** With no idle worker, a worker is started for the client, which waits. */
  lemma ClientWaits(w: World, client: int)
    requires w.Shape() && w.m.idle == [] && |w.m.handles| == 3 && w.m.handles == [None, None, None]
    requires w.m.numWorkers == 0 && w.m.maxWorkers == 3 && |w.m.jobs| + 1 < JOB_QLEN
    ensures OnFrontend(w, client, {}, true) ==
      World(w.m.(handles := [Some(w.m.nextId), None, None], numWorkers := 1, nextId := w.m.nextId + 1, jobs := w.m.jobs + [client]),
            w.pending + {w.m.nextId}, w.owners, w.log + [Accepted(client)])
  {
    assert FirstNull(w.m.handles) == 0;
    assert w.m.handles[0 := Some(w.m.nextId)] == [Some(w.m.nextId), None, None];
  }

  /** The frontend can be reported, and a client taken from it. */
  lemma MayArrive(w: World, client: int)
    requires w.Shape() && |w.m.sockets| == 5 && w.m.sockets[2].kind == Frontend && w.m.masks[2] == ACCEPTING && 2 !in w.m.free
    ensures Polled(w.m, [Arrives(2, client)]) && EnvironmentOk(w, Arrives(2, client))
    ensures Deliver(w, Arrives(2, client)) == OnFrontend(w, client, {}, true)
  {
    assert w.(pending := w.pending - {}) == w;
  }

  /** No worker, and both slots free. */
  predicate Quiet(w: World) {
    && w.Shape() && |w.m.sockets| == 5 && w.m.maxWorkers == 3
    && w.m.sockets[0].kind == Unset && w.m.sockets[1].kind == Ipc && w.m.sockets[2].kind == Frontend
    && w.m.sockets[3].kind == Unset && w.m.sockets[4].kind == Unset
    && w.m.masks[2] == ACCEPTING && 0 !in w.m.free && 2 !in w.m.free
    && w.m.idle == [] && |w.m.jobs| + 1 < JOB_QLEN
    && w.pending == {}
  }

  lemma SnapIsQuiet(s3: Socket, m3: Interest, m4: Interest, free: seq<nat>, clients: nat, handle: Option<int>)
    requires clients < 3 && |free| == 2 && free[0] in {3, 4} && free[1] in {3, 4}
    requires s3 in {ZEROED, LEFT}
    ensures Quiet(Snap(s3, ZEROED, m3, m4, free, clients, handle, {}))
  {
  }

  lemma QuietArrival(w: World, client: int, r: World)
    requires Quiet(w) && w.m.handles == [None, None, None] && w.m.numWorkers == 0
    requires r == World(w.m.(handles := [Some(w.m.nextId), None, None], numWorkers := 1, nextId := w.m.nextId + 1, jobs := w.m.jobs + [client]),
                        w.pending + {w.m.nextId}, w.owners, w.log + [Accepted(client)])
    ensures Wakes(w, Arrives(2, client), r)
  {
    MayArrive(w, client);
    ClientWaits(w, client);
  }

  lemma ClientWakes(s3: Socket, m3: Interest, m4: Interest, free: seq<nat>, clients: nat)
    requires clients < 3 && |free| == 2 && free[0] in {3, 4} && free[1] in {3, 4}
    requires s3 in {ZEROED, LEFT}
    ensures Wakes(Snap(s3, ZEROED, m3, m4, free, clients, None, {}), Arrives(2, 100 + clients),
                  Snap(s3, ZEROED, m3, m4, free, clients + 1, Some(clients), {clients}))
  {
    SnapIsQuiet(s3, m3, m4, free, clients, None);
    QuietArrival(Snap(s3, ZEROED, m3, m4, free, clients, None, {}), 100 + clients,
                 Snap(s3, ZEROED, m3, m4, free, clients + 1, Some(clients), {clients}));
  }

  lemma Swept(worker: int)
    ensures Keep([Some(worker), None, None], {worker}) == [None, None, None]
    ensures Count([None, None, None]) == 0
  {
    var none: seq<Option<int>> := [None, None, None];
    assert Keep([Some(worker), None, None], {worker}) == none;
    assert none[1..][1..][1..] == [];
  }

  /** A worker without a connection is reported stopped. */
  lemma QuietDeath(w: World, worker: int, r: World)
    requires Quiet(w) && w.m.handles == [Some(worker), None, None] && w.m.numWorkers == 1
    requires r == w.(m := w.m.(handles := [None, None, None], numWorkers := 0))
    ensures Wakes(w, Died(worker), r)
  {
    Swept(worker);
    assert w.(pending := w.pending - {}) == w;
  }

  lemma DeathWakes(s3: Socket, m3: Interest, m4: Interest, free: seq<nat>, clients: nat, worker: int)
    requires clients < 3 && |free| == 2 && free[0] in {3, 4} && free[1] in {3, 4}
    requires s3 in {ZEROED, LEFT}
    ensures Wakes(Snap(s3, ZEROED, m3, m4, free, clients, Some(worker), {}), Died(worker),
                  Snap(s3, ZEROED, m3, m4, free, clients, None, {}))
  {
    SnapIsQuiet(s3, m3, m4, free, clients, Some(worker));
    QuietDeath(Snap(s3, ZEROED, m3, m4, free, clients, Some(worker), {}), worker,
               Snap(s3, ZEROED, m3, m4, free, clients, None, {}));
  }

  lemma ConnectWakes()
    ensures Wakes(W1, Arrives(1, 0), W2) && Wakes(W5, Arrives(1, 1), W6)
  {
  }

  lemma EndWakes()
    ensures Wakes(W2, At(3).(readable := true), W3) && Wakes(W6, At(4).(closed := true), W7)
  {
  }

  /** The run, as single-event wake-ups. */
  function Second(): seq<seq<Event>> {
    [[Arrives(2, 101)]] + ([[Arrives(1, 1)]] + ([[At(4).(closed := true)]] + ([[Died(1)]] + ([[Arrives(2, 102)]] + []))))
  }

  function First(): seq<seq<Event>> {
    [[At(3).(readable := true)]] + ([[Died(0)]] + Second())
  }

  function FromConnect(): seq<seq<Event>> {
    [[Arrives(1, 0)]] + First()
  }

  function Batches(): seq<seq<Event>> {
    [[Arrives(2, 100)]] + FromConnect()
  }

  lemma SecondRuns()
    ensures IsRun(W4, Second()) && End(W4, Second()) == W9
  {
    ClientWakes(LEFT, READING, READING, [3, 4], 2);
    Prepend(W8, Arrives(2, 102), W9, []);
    DeathWakes(LEFT, READING, READING, [3, 4], 2, 1);
    Prepend(W7, Died(1), W8, [[Arrives(2, 102)]] + []);
    EndWakes();
    Prepend(W6, At(4).(closed := true), W7, [[Died(1)]] + ([[Arrives(2, 102)]] + []));
    ConnectWakes();
    Prepend(W5, Arrives(1, 1), W6, [[At(4).(closed := true)]] + ([[Died(1)]] + ([[Arrives(2, 102)]] + [])));
    ClientWakes(LEFT, READING, LATCH_ONLY, [4, 3], 1);
    Prepend(W4, Arrives(2, 101), W5, [[Arrives(1, 1)]] + ([[At(4).(closed := true)]] + ([[Died(1)]] + ([[Arrives(2, 102)]] + []))));
  }

  lemma FirstRuns()
    ensures IsRun(W2, First()) && End(W2, First()) == W9
  {
    SecondRuns();
    DeathWakes(LEFT, READING, LATCH_ONLY, [4, 3], 1, 0);
    Prepend(W3, Died(0), W4, Second());
    EndWakes();
    Prepend(W2, At(3).(readable := true), W3, [[Died(0)]] + Second());
  }

  lemma ConnectedRuns()
    ensures IsRun(W1, FromConnect()) && End(W1, FromConnect()) == W9
  {
    FirstRuns();
    ConnectWakes();
    Prepend(W1, Arrives(1, 0), W2, First());
  }

  /** A run goes on from where its first wake-up leads. */
  lemma Onwards(w: World, e: Event, r: World, batches: seq<seq<Event>>, last: World)
    requires Wakes(w, e, r) && r.Shape() && IsRun(r, batches) && End(r, batches) == last
    ensures IsRun(w, [[e]] + batches) && End(w, [[e]] + batches) == last
  {
    Prepend(w, e, r, batches);
  }

  lemma FirstClient()
    ensures Wakes(W0, Arrives(2, 100), W1)
  {
    ClientWakes(ZEROED, LATCH_ONLY, LATCH_ONLY, [3, 4], 0);
  }

  lemma AllRuns(later: seq<seq<Event>>)
    requires IsRun(W1, later) && End(W1, later) == W9
    ensures IsRun(W0, [[Arrives(2, 100)]] + later) && End(W0, [[Arrives(2, 100)]] + later) == W9
  {
    FirstClient();
    Onwards(W0, Arrives(2, 100), W1, later, W9);
  }

  lemma StartsThere()
    ensures Startup(1, 3) == W0
  {
    var r := Startup(1, 3);
    assert r.m.sockets == W0.m.sockets;
    assert r.m.masks == W0.m.masks;
    assert r.m.free == W0.m.free;
    assert r.m.handles == W0.m.handles;
  }

  /** A run that ends between two wake-ups. */
  lemma ReachedBetween(listeners: nat, maxWorkers: nat, batches: seq<seq<Event>>, start: World, w: World)
    requires maxWorkers >= 1 && Startup(listeners, maxWorkers) == start
    requires IsRun(start, batches) && End(start, batches) == w
    ensures Reaches(Run(listeners, maxWorkers, batches, [], 0), w)
  {
  }

  /** The whole greeting arrives in one piece. */
  function Greeting(id: seq<byte>): Event {
    At(3).(readable := true, received := Some(HELLO + id))
  }

  lemma GreetingTurns(w: World, id: seq<byte>)
    requires w.Shape() && |w.m.sockets| == 5 && |id| == 4
    requires w.m.sockets[3].kind == Backend && w.m.sockets[3].readOffset == 255 && w.m.masks[3] == READING
    ensures Turns(w, 3, [Greeting(id)]) && IsGreeting(Bytes(3, [Greeting(id)]))
  {
    var events := [Greeting(id)];
    assert events[1..] == [];
    assert Bytes(3, events) == (HELLO + id) + [];
  }

  /** A spawned worker connects, and however its greeting arrives it is not heard,
      with three clients waiting. */
  lemma AGreetingIsLost(id: seq<byte>, events: seq<Event>)
    requires |id| == 4
    ensures Reaches(Run(1, 3, Batches(), [], 0), W9)
    ensures 2 in W9.pending && |W9.m.jobs| == 3
    ensures W9.m.free != [] && W9.m.free[0] == 3
    ensures Turns(OnBackendConnect(W9, 2), 3, [Greeting(id)]) && IsGreeting(Bytes(3, [Greeting(id)]))
    ensures Turns(OnBackendConnect(W9, 2), 3, events) ==> !Heard(OnBackendConnect(W9, 2), 2, 3, events)
  {
    StartsThere();
    ConnectedRuns();
    AllRuns(FromConnect());
    ReachedBetween(1, 3, Batches(), W0, W9);
    ReachedIsSafe(Run(1, 3, Batches(), [], 0), W9);
    LostThere(id, events);
  }

  lemma LostThere(id: seq<byte>, events: seq<Event>)
    requires |id| == 4 && Inv(W9)
    ensures 2 in W9.pending && |W9.m.jobs| == 3 && W9.m.free != [] && W9.m.free[0] == 3
    ensures Turns(OnBackendConnect(W9, 2), 3, [Greeting(id)]) && IsGreeting(Bytes(3, [Greeting(id)]))
    ensures Turns(OnBackendConnect(W9, 2), 3, events) ==> !Heard(OnBackendConnect(W9, 2), 2, 3, events)
  {
    JustConnected(W9, 2);
    var r := OnBackendConnect(W9, 2);
    GreetingTurns(r, id);
    if Turns(r, 3, events) {
      MutedIsNotHeard(r, 2, 3, events);
    }
  }
}
