/**
 master.c itself: the same steps as MasterModel, performed in place on the socket
 table, the wait set and the three rings.
 */
module Dispatcher {
  import opened Base
  import opened Hello
  import opened Ring
  import opened EventSet
  import opened MasterModel
  import MasterInv
  import MasterSteps
  import opened MasterRuns

  /** The slots below `hi` have been given out. */
  ghost predicate Opened(sockets: seq<Socket>, masks: seq<Interest>, free: seq<nat>, hi: nat) {
    && |masks| == |sockets|
    && |free| + hi == |sockets|
    && (forall k :: 0 <= k < |free| ==> free[k] == hi + k)
    && (forall k :: 0 <= k < |sockets| ==> sockets[k] == OpenedSocket(k, hi) && masks[k] == OpenedMask(k, hi))
  }

  lemma NothingOpened(sockets: seq<Socket>, masks: seq<Interest>, free: seq<nat>)
    requires |free| == |masks| == |sockets|
    requires forall k :: 0 <= k < |sockets| ==> sockets[k] == ZEROED && masks[k] == LATCH_ONLY && free[k] == k
    ensures Opened(sockets, masks, free, 0)
  {
  }

  lemma OneMore(sockets: seq<Socket>, masks: seq<Interest>, free: seq<nat>, next: nat, socket: Socket, events: Interest)
    requires Opened(sockets, masks, free, next) && next < |sockets|
    requires socket.(pos := next) == OpenedSocket(next, next + 1) && events == OpenedMask(next, next + 1)
    ensures Opened(sockets[next := socket.(pos := next)], masks[next := events], free[1..], next + 1)
  {
  }

  lemma OpenedIsStartup(sockets: seq<Socket>, masks: seq<Interest>, free: seq<nat>, listeners: nat, maxWorkers: nat)
    requires maxWorkers >= 1 && |sockets| == 1 + listeners + maxWorkers
    requires Opened(sockets, masks, free, 2 + listeners)
    ensures var m := Startup(listeners, maxWorkers).m; m.sockets == sockets && m.masks == masks && m.free == free
  {
  }

  class Master {
    const listeners: nat
    const maxWorkers: nat
    const sockets: array<Socket>
    const waitSet: WaitEventSetEx
    const idleWorkers: array<nat>
    var idleHead: nat
    var idleTail: nat
    var idleSize: nat
    const jobQueue: array<int>
    var jobHead: nat
    var jobTail: nat
    var jobSize: nat
    var frontendPaused: bool
    const workerHandles: array<Option<int>>
    var numWorkers: nat
    var workerIdSeq: int
    /** The world of the model that this object is in. */
    ghost var world: World

    ghost function Repr(): set<object> {
      {this, sockets, waitSet, waitSet.slots, waitSet.masks, idleWorkers, jobQueue, workerHandles}
    }

    ghost predicate Separate() {
      && sockets as object != waitSet.masks && sockets as object != waitSet.slots
      && idleWorkers as object != waitSet.slots && idleWorkers as object != waitSet.masks
      && jobQueue as object != waitSet.slots && jobQueue as object != waitSet.masks
      && workerHandles as object != waitSet.slots && workerHandles as object != waitSet.masks
      && jobQueue as object != idleWorkers
      && sockets as object != idleWorkers && sockets as object != jobQueue && sockets as object != workerHandles
      && workerHandles as object != idleWorkers && workerHandles as object != jobQueue
      && waitSet.slots as object != waitSet.masks
    }

    /** The rings are laid out in their arrays. */
    ghost predicate Rings()
      reads this
    {
      && 0 < idleWorkers.Length && idleHead < idleWorkers.Length && idleSize <= idleWorkers.Length
      && idleTail == Tail(idleHead, idleSize, idleWorkers.Length)
      && jobQueue.Length == JOB_QLEN && jobHead < JOB_QLEN && jobSize <= JOB_QLEN
      && jobTail == Tail(jobHead, jobSize, JOB_QLEN)
    }

    /** The values the arrays and counters hold. */
    ghost function View(): State
      requires Rings() && waitSet.Valid()
      reads this, sockets, waitSet, waitSet.slots, waitSet.masks, idleWorkers, jobQueue, workerHandles
    {
      State(listeners, maxWorkers, sockets[..], waitSet.masks[..], waitSet.Free(),
        Segment(idleWorkers[..], idleHead, idleSize), Segment(jobQueue[..], jobHead, jobSize),
        frontendPaused, workerHandles[..], numWorkers, workerIdSeq, false)
    }

    ghost predicate Valid()
      reads Repr()
    {
      && Separate()
      && waitSet.Valid()
      && Rings()
      && world.Shape()
      && idleWorkers.Length == world.m.Slots()
      && world.m == View()
    }

    /** The allocations of startup(). */
    constructor (numListenSockets: nat, maxWorkerProcesses: nat)
      requires maxWorkerProcesses >= 1
      ensures fresh(Repr()) && Separate() && Rings() && waitSet.Valid()
      ensures listeners == numListenSockets && maxWorkers == maxWorkerProcesses
      ensures Blank()
    {
      var total := 1 + numListenSockets + maxWorkerProcesses;
      listeners, maxWorkers := numListenSockets, maxWorkerProcesses;
      sockets := new Socket[total](i => ZEROED);
      waitSet := new WaitEventSetEx(total);
      idleWorkers := new nat[total](i => 0);
      idleHead, idleTail, idleSize := 0, 0, 0;
      jobQueue := new int[JOB_QLEN](i => 0);
      jobHead, jobTail, jobSize := 0, 0, 0;
      frontendPaused := false;
      workerHandles := new Option<int>[maxWorkerProcesses](i => None);
      numWorkers, workerIdSeq := 0, 0;
    }

    ghost predicate Blank()
      reads Repr()
    {
      && maxWorkers >= 1
      && waitSet.Valid()
      && sockets.Length == idleWorkers.Length == waitSet.slots.Length == 1 + listeners + maxWorkers
      && (forall k :: 0 <= k < sockets.Length ==> sockets[k] == ZEROED && waitSet.masks[k] == LATCH_ONLY)
      && waitSet.Free() == seq(sockets.Length, i => i)
      && idleSize == jobSize == 0 && !frontendPaused && numWorkers == workerIdSeq == 0
      && workerHandles.Length == maxWorkers && forall k :: 0 <= k < maxWorkers ==> workerHandles[k] == None
    }

    /** The rest of startup(), with the sockets it listens on already open. */
    method Start()
      requires Separate() && Rings() && Blank()
      modifies Repr()
      ensures Valid() && world == Startup(listeners, maxWorkers)
    {
      NothingOpened(sockets[..], waitSet.masks[..], waitSet.Free());
      OpenSockets();
      world := Startup(listeners, maxWorkers);
      assert workerHandles[..] == world.m.handles;
      OpenedIsStartup(sockets[..], waitSet.masks[..], waitSet.Free(), listeners, maxWorkers);
    }

    /** Gives the latch, the IPC socket and the listening sockets their positions. */
    method OpenSockets()
      requires waitSet.Valid() && sockets as object != waitSet.masks && sockets as object != waitSet.slots
      requires sockets.Length == waitSet.slots.Length
      requires 2 + listeners <= sockets.Length
      requires Opened(sockets[..], waitSet.masks[..], waitSet.Free(), 0)
      modifies sockets, waitSet, waitSet.masks
      ensures waitSet.Valid()
      ensures Opened(sockets[..], waitSet.masks[..], waitSet.Free(), 2 + listeners)
    {
      OccupyNext(ZEROED, LATCH_ONLY, 0);
      OccupyNext(ZEROED.(kind := Ipc), ACCEPTING, 1);
      for i := 0 to listeners
        invariant waitSet.Valid()
        invariant Opened(sockets[..], waitSet.masks[..], waitSet.Free(), 2 + i)
      {
        OccupyNext(ZEROED.(kind := Frontend), ACCEPTING, 2 + i);
      }
    }

    /** One more slot is given out at startup. */
    method OccupyNext(socket: Socket, events: Interest, ghost next: nat)
      requires waitSet.Valid() && sockets as object != waitSet.masks && sockets as object != waitSet.slots
      requires sockets.Length == waitSet.slots.Length
      requires Opened(sockets[..], waitSet.masks[..], waitSet.Free(), next) && next < sockets.Length
      requires socket.(pos := next) == OpenedSocket(next, next + 1) && events == OpenedMask(next, next + 1)
      modifies sockets, waitSet, waitSet.masks
      ensures waitSet.Valid()
      ensures Opened(sockets[..], waitSet.masks[..], waitSet.Free(), next + 1)
    {
      OneMore(sockets[..], waitSet.masks[..], waitSet.Free(), next, socket, events);
      Occupy(socket, events, next);
    }

    /** The next free slot gets `socket`; `next` is which one that is. */
    method Occupy(socket: Socket, events: Interest, ghost next: nat)
      requires waitSet.Valid() && sockets as object != waitSet.masks && sockets as object != waitSet.slots
      requires sockets.Length == waitSet.slots.Length
      requires waitSet.Free() != [] && waitSet.Free()[0] == next && next < sockets.Length
      modifies sockets, waitSet, waitSet.masks
      ensures waitSet.Valid() && waitSet.Free() == old(waitSet.Free())[1..]
      ensures waitSet.live == old(waitSet.live) + {next}
      ensures sockets[..] == old(sockets[..])[next := socket.(pos := next)]
      ensures waitSet.masks[..] == old(waitSet.masks[..])[next := events]
    {
      var at := waitSet.NextPos();
      sockets[at] := socket;
      var pos := waitSet.Add(events);
      sockets[at] := sockets[at].(pos := pos);
    }

    /** DeleteWaitEventEx, StreamClose, memset. */
    method CloseSocket(p: nat)
      requires Valid() && p < sockets.Length && sockets[p].kind == Backend && p in waitSet.live
      modifies this`world, sockets, waitSet, waitSet.slots
      ensures Valid() && world == Close(old(world), p)
      ensures waitSet.live == old(waitSet.live) - {p}
    {
      assert sockets[p].pos == p;
      waitSet.Delete(sockets[p].pos);
      sockets[p] := ZEROED;
      world := Close(world, p);
    }

    method OnBackendConnect(worker: int)
      requires Valid() && world.m.free != []
      modifies this`world, sockets, waitSet, waitSet.masks
      ensures Valid() && world == MasterModel.OnBackendConnect(old(world), worker)
    {
      var at := waitSet.NextPos();
      ghost var m := world.m;
      Occupy(sockets[at].(kind := Backend, fd := worker), READING, at);
      assert sockets[..] == m.sockets[at := m.sockets[at].(kind := Backend, fd := worker, pos := at)];
      assert waitSet.masks[..] == m.masks[at := READING] && waitSet.Free() == m.free[1..];
      world := MasterModel.OnBackendConnect(world, worker);
    }

    /** Takes the oldest entry off the idle ring. */
    method TakeIdle() returns (p: nat)
      requires Valid() && idleSize > 0
      modifies this`world, this`idleHead, this`idleSize
      ensures Valid() && world == PopIdle(old(world))
      ensures p == old(world).m.idle[0] && p < sockets.Length
      ensures idleSize == old(idleSize) - 1
    {
      Pop(idleWorkers[..], idleHead, idleSize);
      p := idleWorkers[idleHead];
      idleHead := Next(idleHead, idleWorkers.Length);
      idleSize := idleSize - 1;
      world := PopIdle(world);
    }

    /** The client went to the connection at `p`, which delivers bytes again. */
    method Dispatched(p: nat, client: int)
      requires Valid() && p < sockets.Length && sockets[p].kind == Backend
      modifies this`world, waitSet.masks
      ensures Valid() && world == Assign(old(world), p, client)
    {
      waitSet.Modify(sockets[p].pos, READING);
      world := Assign(world, p, client);
    }

    /** ModifyWaitEventEx on each listening frontend socket. */
    method ArmFrontends(interest: Interest)
      requires Valid()
      modifies this`world, waitSet.masks
      ensures Valid() && world == old(world).(m := MasterModel.ArmFrontends(old(world).m, interest))
    {
      ghost var masks := waitSet.masks[..];
      ghost var free := waitSet.Free();
      for i := 0 to sockets.Length
        invariant waitSet.Valid() && waitSet.Free() == free
        invariant waitSet.masks.Length == sockets.Length
        invariant forall k :: 0 <= k < sockets.Length ==> sockets[k].kind != Unset ==> sockets[k].pos == k
        invariant forall k :: 0 <= k < sockets.Length ==>
          waitSet.masks[k] == if k < i && sockets[k].kind == Frontend then interest else masks[k]
        modifies waitSet.masks
      {
        if sockets[i].kind == Frontend {
          waitSet.Modify(sockets[i].pos, interest);
        }
      }
      world := world.(m := MasterModel.ArmFrontends(world.m, interest));
      assert waitSet.masks[..] == world.m.masks;
    }

    /** The first free entry of the handle table, which has one. */
    method FindHandle() returns (i: nat)
      requires Count(workerHandles[..]) < workerHandles.Length
      ensures i == FirstNull(workerHandles[..]) && i < workerHandles.Length
    {
      i := 0;
      while i < workerHandles.Length && workerHandles[i] != None
        invariant 0 <= i <= workerHandles.Length
        invariant forall j :: 0 <= j < i ==> workerHandles[j] != None
      {
        i := i + 1;
      }
      if i == workerHandles.Length {
        MasterSteps.FullCount(workerHandles[..]);
      }
    }

    /** RegisterDynamicBackgroundWorker succeeded, with its handle stored at `i`. */
    method Registered(i: nat, id: int)
      requires Valid() && i < workerHandles.Length
      modifies this`world, this`numWorkers, workerHandles
      ensures Valid()
      ensures var w := old(world);
        world == w.(m := w.m.(handles := w.m.handles[i := Some(id)], numWorkers := w.m.numWorkers + 1),
                    pending := w.pending + {id})
    {
      workerHandles[i] := Some(id);
      numWorkers := numWorkers + 1;
      world := world.(m := world.m.(handles := world.m.handles[i := Some(id)], numWorkers := world.m.numWorkers + 1),
                      pending := world.pending + {id});
    }

    /** Numbers the next worker. */
    method TakeId() returns (id: int)
      requires Valid()
      modifies this`world, this`workerIdSeq
      ensures Valid() && id == old(world).m.nextId
      ensures world == old(world).(m := old(world).m.(nextId := id + 1))
    {
      id := workerIdSeq;
      workerIdSeq := workerIdSeq + 1;
      world := world.(m := world.m.(nextId := id + 1));
    }

    /** Starts a worker if the limit allows. */
    method SpawnWorker(registers: bool)
      requires Valid() && idleSize == 0 && world.m.numWorkers == Count(world.m.handles)
      modifies this`world, this`numWorkers, this`workerIdSeq, workerHandles
      ensures Valid() && world == Spawn(old(world), registers)
    {
      if numWorkers < maxWorkers - 2 {
        var id := TakeId();
        var i := FindHandle();
        if registers {
          Registered(i, id);
        }
      }
    }

    /** Appends to the job ring. */
    method PutJob(client: int)
      requires Valid() && jobSize < JOB_QLEN
      modifies this`world, this`jobSize, this`jobTail, jobQueue
      ensures Valid() && world == old(world).(m := old(world).m.(jobs := old(world).m.jobs + [client]))
    {
      PushJob(client);
      world := world.(m := world.m.(jobs := world.m.jobs + [client]));
    }

    /** Appends to the job ring's array. */
    method PushJob(client: int)
      requires Rings() && jobSize < JOB_QLEN
      modifies this`jobSize, this`jobTail, jobQueue
      ensures Rings() && jobSize == old(jobSize) + 1
      ensures Segment(jobQueue[..], jobHead, jobSize) == old(Segment(jobQueue[..], jobHead, jobSize)) + [client]
    {
      Push(jobQueue[..], jobHead, jobSize, client);
      jobSize := jobSize + 1;
      jobQueue[jobTail] := client;
      assert jobQueue[..] == old(jobQueue[..])[jobTail := client];
      jobTail := Next(jobTail, JOB_QLEN);
    }

    /** Takes the oldest waiting client. */
    method TakeJob() returns (job: int)
      requires Valid() && jobSize > 0
      modifies this`world, this`jobSize, this`jobHead
      ensures Valid() && world == old(world).(m := old(world).m.(jobs := old(world).m.jobs[1..]))
      ensures job == old(world).m.jobs[0]
    {
      Pop(jobQueue[..], jobHead, jobSize);
      job := jobQueue[jobHead];
      jobSize := jobSize - 1;
      jobHead := Next(jobHead, JOB_QLEN);
      world := world.(m := world.m.(jobs := world.m.jobs[1..]));
    }

    /** Pauses or resumes accepting clients. */
    method SetPaused(paused: bool)
      requires Valid()
      modifies this`world, this`frontendPaused, waitSet.masks
      ensures Valid()
      ensures var m := old(world).m.(paused := paused);
        world == old(world).(m := MasterModel.ArmFrontends(m, if paused then CLOSED_ONLY else ACCEPTING))
    {
      frontendPaused := paused;
      world := world.(m := world.m.(paused := paused));
      ArmFrontends(if paused then CLOSED_ONLY else ACCEPTING);
    }

    method EnqueueJob(client: int)
      requires Valid()
      modifies this, jobQueue, waitSet.masks
      ensures Valid() && world == Enqueue(old(world), client)
    {
      if jobSize < JOB_QLEN {
        PutJob(client);
        if jobSize == JOB_QLEN {
          SetPaused(true);
        }
      } else {
        world := world.(log := world.log + [Refused(client)]);
      }
    }

    /** Sends the client to the connection at `p`, or closes it. */
    method Place(p: nat, client: int, broken: set<int>) returns (done: bool)
      requires Valid() && p < sockets.Length && sockets[p].kind == Backend && p in waitSet.live
      modifies Repr()
      ensures Valid() && done == (old(sockets[p].fd) !in broken)
      ensures world == if done then Assign(old(world), p, client) else Close(old(world), p)
      ensures idleSize == old(idleSize)
    {
      if sockets[p].fd in broken {
        CloseSocket(p);
        return false;
      }
      Dispatched(p, client);
      return true;
    }

    /** Tries the oldest idle entry. */
    method Offer(client: int, broken: set<int>) returns (done: bool)
      requires Valid() && MasterInv.InvWith(world, [client]) && idleSize > 0
      modifies Repr()
      ensures Valid()
      ensures done ==> Drain(old(world), client, broken) == (world, true)
      ensures !done ==> idleSize < old(idleSize) && Drain(old(world), client, broken) == Drain(world, client, broken)
      ensures !done ==> MasterInv.InvWith(world, [client])
    {
      ghost var w := world;
      var p := TakeIdle();
      if sockets[p].kind == Backend {
        IsLive(w.m, p);
        MasterSteps.PopCloseKeeps(w, [client]);
        done := Place(p, client, broken);
        return;
      }
      MasterSteps.PopStaleKeeps(w, [client]);
      return false;
    }

    /** Tries idle entries until one takes the client. */
    method TryIdle(client: int, broken: set<int>) returns (done: bool)
      requires Valid() && MasterInv.InvWith(world, [client])
      modifies Repr()
      ensures Valid() && Drain(old(world), client, broken) == (world, done)
    {
      while idleSize > 0
        invariant Valid() && MasterInv.InvWith(world, [client])
        invariant Drain(world, client, broken) == Drain(old(world), client, broken)
        decreases idleSize
      {
        done := Offer(client, broken);
        if done {
          return;
        }
      }
      done := false;
    }

    /** The client is accepted; from here on it is in hand. */
    method Accept(client: int)
      requires Valid()
      modifies this`world
      ensures Valid() && world == old(world).(log := old(world).log + [Accepted(client)])
    {
      world := world.(log := world.log + [Accepted(client)]);
    }

    /** What follows when no idle worker took the client. */
    method Unplaced(client: int, registers: bool)
      requires Valid() && world.m.idle == [] && world.m.numWorkers == Count(world.m.handles)
      modifies this, workerHandles, jobQueue, waitSet.masks
      ensures Valid() && world == Enqueue(Spawn(old(world), registers), client)
    {
      SpawnWorker(registers);
      EnqueueJob(client);
    }

    method OnFrontend(client: int, broken: set<int>, registers: bool)
      requires Valid() && MasterInv.Inv(world)
      modifies Repr()
      ensures Valid() && world == MasterModel.OnFrontend(old(world), client, broken, registers)
    {
      MasterSteps.AcceptedClient(world, client, broken);
      Accept(client);
      var done := TryIdle(client, broken);
      if !done {
        Unplaced(client, registers);
      }
    }

    /** A backend's slot is occupied. */
    lemma IsLive(m: State, p: nat)
      requires waitSet.Valid() && MasterInv.Table(m) && MasterInv.IsBackend(m, p)
      requires waitSet.slots.Length == m.Slots() && waitSet.Free() == m.free
      ensures p in waitSet.live
    {
      MasterInv.Occupied(m, p);
    }

    /** Hands the oldest waiting client to the connection `fd`. */
    method HandOut(ghost fd: int)
      requires Valid() && jobSize > 0
      modifies this`world, this`jobSize, this`jobHead, this`frontendPaused, waitSet.masks
      ensures Valid() && world == GiveJob(old(world), fd)
    {
      var job := TakeJob();
      world := world.(log := world.log + [Sent(job, fd)]);
      if frontendPaused {
        SetPaused(false);
      }
    }

    /** The worker behind `p` has said it is idle. */
    method OnIdle(p: nat, sendOk: bool)
      requires Valid() && p < sockets.Length && sockets[p].kind == Backend && p in waitSet.live
      requires idleSize < idleWorkers.Length
      modifies Repr()
      ensures Valid() && world == MasterModel.OnIdle(old(world), p, sendOk)
    {
      ghost var fd := sockets[p].fd;
      world := world.(log := world.log + [Announced(fd)]);
      if jobSize > 0 {
        if !sendOk {
          CloseSocket(p);
        } else {
          HandOut(fd);
        }
      } else {
        Park(p);
      }
    }

    /** The position is armed only for the other end closing. */
    method Mute(p: nat)
      requires Valid() && p < sockets.Length && sockets[p].kind == Backend
      modifies this`world, waitSet.masks
      ensures Valid() && world == old(world).(m := old(world).m.(masks := old(world).m.masks[p := CLOSED_ONLY]))
    {
      waitSet.Modify(sockets[p].pos, CLOSED_ONLY);
      world := world.(m := world.m.(masks := world.m.masks[p := CLOSED_ONLY]));
    }

    /** Puts the connection at `p` on the idle ring. */
    method Park(p: nat)
      requires Valid() && p < sockets.Length && sockets[p].kind == Backend
      requires idleSize < idleWorkers.Length
      modifies this`world, this`idleSize, this`idleTail, waitSet.masks, idleWorkers
      ensures Valid() && world == ParkAt(old(world), p)
    {
      Mute(p);
      PutIdle(sockets[p].pos, sockets[p].fd);
    }

    /** Appends to the idle ring. */
    method PutIdle(p: nat, ghost fd: int)
      requires Valid() && p < sockets.Length && idleSize < idleWorkers.Length
      modifies this`world, this`idleSize, this`idleTail, idleWorkers
      ensures Valid()
      ensures world == old(world).(m := old(world).m.(idle := old(world).m.idle + [p]), owners := old(world).owners + [fd])
    {
      PushIdle(p);
      world := world.(m := world.m.(idle := world.m.idle + [p]), owners := world.owners + [fd]);
    }

    /** Appends to the idle ring's array. */
    method PushIdle(p: nat)
      requires Rings() && idleSize < idleWorkers.Length
      modifies this`idleSize, this`idleTail, idleWorkers
      ensures Rings() && idleSize == old(idleSize) + 1
      ensures Segment(idleWorkers[..], idleHead, idleSize) == old(Segment(idleWorkers[..], idleHead, idleSize)) + [p]
    {
      Push(idleWorkers[..], idleHead, idleSize, p);
      idleSize := idleSize + 1;
      idleWorkers[idleTail] := p;
      assert idleWorkers[..] == old(idleWorkers[..])[idleTail := p];
      idleTail := Next(idleTail, idleWorkers.Length);
    }

    /** Stores what the greeting so far has filled in. */
    method Remember(p: nat, f: Framing)
      requires Valid() && p < sockets.Length && |f.workerId| == 4
      modifies this`world, sockets
      ensures Valid() && world == old(world).(m := Framed(old(world).m, p, f))
    {
      sockets[p] := sockets[p].(readOffset := f.offset, workerId := f.workerId);
      world := world.(m := Framed(world.m, p, f));
    }

    /** recv() failed: after closing, control reaches the update of the offset. */
    method CloseBroken(p: nat)
      requires Valid() && p < sockets.Length && sockets[p].kind == Backend && p in waitSet.live
      modifies this`world, sockets, waitSet, waitSet.slots
      ensures Valid()
      ensures world == old(world).(m := MasterModel.AddToOffset(MasterModel.CloseSocket(old(world).m, p), p, -1))
    {
      CloseSocket(p);
      AddToOffset(p, -1);
    }

    /** The common exit of on_backend(). */
    method AddToOffset(p: nat, received: int)
      requires Valid() && p < sockets.Length
      modifies this`world, sockets
      ensures Valid() && world == old(world).(m := MasterModel.AddToOffset(old(world).m, p, received))
    {
      sockets[p] := sockets[p].(readOffset := (sockets[p].readOffset + received) % 256);
      world := world.(m := MasterModel.AddToOffset(world.m, p, received));
    }

    method OnBackendReadable(p: nat, received: Option<seq<byte>>, broken: set<int>)
      requires Valid() && p < sockets.Length && sockets[p].kind == Backend && p in waitSet.live
      requires idleSize < idleWorkers.Length
      requires received.Some? && sockets[p].readOffset < FRAME ==> |received.value| <= FRAME - sockets[p].readOffset
      modifies Repr()
      ensures Valid() && world == MasterModel.OnBackendReadable(old(world), p, received, broken)
    {
      if sockets[p].readOffset >= FRAME {
        Mute(p);
        return;
      }
      if received.None? {
        CloseBroken(p);
        return;
      }
      var verdict := Scan(Framing(sockets[p].readOffset, sockets[p].workerId), received.value);
      match verdict {
        case Rejected =>
          CloseSocket(p);
        case Partial(f) =>
          Remember(p, f);
        case Complete(f) =>
          Remember(p, f);
          OnIdle(p, sockets[p].fd !in broken);
      }
    }

    /** on_worker_died's loop over the handle table. */
    method SweepHandles(stopped: set<int>) returns (workers: nat)
      requires workerHandles as object != waitSet.masks
      modifies workerHandles
      ensures workerHandles[..] == Keep(old(workerHandles[..]), stopped)
      ensures workers == Count(workerHandles[..])
    {
      ghost var kept := Keep(workerHandles[..], stopped);
      workers := 0;
      for i := 0 to workerHandles.Length
        invariant forall k :: 0 <= k < i ==> workerHandles[k] == kept[k]
        invariant forall k :: i <= k < workerHandles.Length ==> workerHandles[k] == old(workerHandles[k])
        invariant workers + Count(kept[i..]) == Count(kept)
      {
        assert kept[i..][1..] == kept[i + 1..];
        if workerHandles[i].Some? {
          if workerHandles[i].value in stopped {
            workerHandles[i] := None;
          } else {
            workers := workers + 1;
          }
        }
      }
    }

    /** The handles of stopped workers are cleared; the rest are counted. */
    method Forget(stopped: set<int>) returns (workers: nat)
      requires Valid()
      modifies this`world, workerHandles
      ensures Valid() && world == old(world).(m := old(world).m.(handles := Keep(old(world).m.handles, stopped)))
      ensures workers == Count(world.m.handles)
    {
      workers := SweepHandles(stopped);
      world := world.(m := world.m.(handles := Keep(world.m.handles, stopped)));
    }

    method SetNumWorkers(workers: nat)
      requires Valid()
      modifies this`world, this`numWorkers
      ensures Valid() && world == old(world).(m := old(world).m.(numWorkers := workers))
    {
      numWorkers := workers;
      world := world.(m := world.m.(numWorkers := workers));
    }

    method OnWorkerDied(stopped: set<int>)
      requires Valid() && Count(Keep(world.m.handles, stopped)) <= world.m.numWorkers
      modifies this`world, this`numWorkers, workerHandles
      ensures Valid() && world == MasterModel.OnWorkerDied(old(world), stopped)
    {
      var workers := Forget(stopped);
      if workers < numWorkers {
        SetNumWorkers(workers);
      }
    }

    method OnBackend(e: Event)
      requires Valid() && e.slot < sockets.Length && sockets[e.slot].kind == Backend && e.slot in waitSet.live
      requires idleSize < idleWorkers.Length && Fits(world.m, e, e.slot)
      modifies Repr()
      ensures Valid() && world == MasterModel.OnBackend(old(world), e.slot, e)
    {
      if e.closed {
        CloseSocket(e.slot);
      } else if e.readable {
        OnBackendReadable(e.slot, e.received, e.broken);
      }
    }

    /** The latch part of main_loop()'s body. */
    method OnLatch(e: Event)
      requires Valid() && MasterInv.Inv(world) && MasterSteps.EnvironmentOk(world, e)
      modifies this`world, this`numWorkers, workerHandles
      ensures Valid() && world == Latched(old(world), e)
    {
      world := world.(pending := world.pending - e.lost);
      if e.latch {
        MasterSteps.KeepCount(world.m.handles, e.stopped);
        OnWorkerDied(e.stopped);
      }
    }

    /** The choice of a handler in main_loop()'s body. */
    method Dispatch(e: Event)
      requires Valid() && MasterInv.Inv(world) && MasterSteps.Handleable(world, e)
      modifies Repr()
      ensures Valid() && world == Handle(old(world), e)
    {
      var kind := sockets[e.slot].kind;
      if kind == Ipc && e.readable && e.arrival.Some? {
        MasterSteps.ConnectKeeps(world, e.arrival.value);
        OnBackendConnect(e.arrival.value);
      }
      if kind == Frontend && e.readable && e.arrival.Some? {
        OnFrontend(e.arrival.value, e.broken, e.registers);
      }
      if kind == Backend {
        IsLive(world.m, e.slot);
        MasterInv.IdleFits(world, []);
        OnBackend(e);
      }
    }

    /** The body of main_loop() for one event. */
    method HandleEvent(e: Event)
      requires Valid() && MasterInv.Inv(world) && MasterSteps.EnvironmentOk(world, e) && MasterSteps.Fresh(world, e)
      modifies Repr()
      ensures Valid() && world == Deliver(old(world), e)
    {
      MasterSteps.LatchedKeeps(world, e);
      OnLatch(e);
      Dispatch(e);
    }

    /** One turn of main_loop()'s inner loop, with the events `rest` still to come. */
    method HandleNext(e: Event, ghost polled: World, ghost rest: seq<Event>)
      requires Valid() && MasterInv.Inv(polled) && MasterInv.Inv(world)
      requires rest != [] && rest[0] == e && Ahead(polled, world, rest) && Admitted(world, rest)
      modifies Repr()
      ensures Valid() && MasterInv.Inv(world)
      ensures Ahead(polled, world, rest[1..]) && Admitted(world, rest[1..])
      ensures HandleAll(old(world), rest) == HandleAll(world, rest[1..])
    {
      FirstEvent(polled, world, rest);
      HandleEvent(e);
    }

    /** One wake-up of main_loop(). */
    method HandleBatch(batch: seq<Event>)
      requires Valid() && MasterInv.Inv(world) && Polled(world.m, batch) && Admitted(world, batch)
      modifies Repr()
      ensures Valid() && MasterInv.Inv(world) && world == HandleAll(old(world), batch)
    {
      ghost var polled := world;
      for i := 0 to |batch|
        invariant Valid() && MasterInv.Inv(world)
        invariant Ahead(polled, world, batch[i..]) && Admitted(world, batch[i..])
        invariant HandleAll(world, batch[i..]) == HandleAll(polled, batch)
      {
        HandleNext(batch[i], polled, batch[i..]);
        assert batch[i..][1..] == batch[i + 1..];
      }
    }
  }
}
