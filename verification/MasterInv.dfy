/** What every reachable world of the dispatcher satisfies. */
module MasterInv {
  import opened Base
  import opened Hello
  import opened MasterModel
  import opened Counting

  // ---------------------------------------------------------------- history

  /** The clients handed to some worker, oldest first. */
  function SentClients(log: seq<Entry>): seq<int> {
    if log == [] then []
    else
      var rest := SentClients(log[..|log| - 1]);
      match log[|log| - 1]
      case Sent(c, _) => rest + [c]
      case _ => rest
  }

  /** The accepted clients, oldest first; turning a client away withdraws its
      acceptance. */
  function Kept(log: seq<Entry>): seq<int> {
    if log == [] then []
    else
      var rest := Kept(log[..|log| - 1]);
      match log[|log| - 1]
      case Accepted(c) => rest + [c]
      case Refused(c) => if rest != [] && rest[|rest| - 1] == c then rest[..|rest| - 1] else rest
      case _ => rest
  }

  /** The workers that announced themselves idle and got no client since. */
  function Waiting(log: seq<Entry>): set<int> {
    if log == [] then {}
    else
      var rest := Waiting(log[..|log| - 1]);
      match log[|log| - 1]
      case Announced(x) => rest + {x}
      case Sent(_, x) => rest - {x}
      case _ => rest
  }

  /** Every client was sent to a worker that was waiting at that moment, and no
      worker announced itself twice without a client in between. */
  predicate Paired(log: seq<Entry>) {
    log == [] ||
    var before := log[..|log| - 1];
    && Paired(before)
    && match log[|log| - 1]
       case Announced(x) => x !in Waiting(before)
       case Sent(_, x) => x in Waiting(before)
       case _ => true
  }

  lemma Append(log: seq<Entry>, e: Entry)
    ensures SentClients(log + [e]) == SentClients(log) + (if e.Sent? then [e.client] else [])
    ensures e.Accepted? ==> Kept(log + [e]) == Kept(log) + [e.client]
    ensures e.Refused? && Kept(log) != [] && Kept(log)[|Kept(log)| - 1] == e.client ==> Kept(log + [e]) == Kept(log)[..|Kept(log)| - 1]
    ensures e.Sent? || e.Announced? ==> Kept(log + [e]) == Kept(log)
    ensures Waiting(log + [e]) == if e.Announced? then Waiting(log) + {e.worker} else if e.Sent? then Waiting(log) - {e.worker} else Waiting(log)
    ensures Paired(log + [e]) <==> Paired(log) && (e.Announced? ==> e.worker !in Waiting(log)) && (e.Sent? ==> e.worker in Waiting(log))
  {
    assert (log + [e])[..|log + [e]| - 1] == log;
  }

  // ---------------------------------------------------------------- invariant

  /** The socket table and the free ring: latch, IPC, frontends, and then slots
      that are either connected backends or in the ring, once. */
  ghost predicate Table(m: State) {
    && m.Shape()
    && m.maxWorkers >= 1
    && !m.fault
    && m.sockets[0].kind == Unset
    && m.sockets[1].kind == Ipc
    && (forall p :: 2 <= p < m.Fixed() ==> m.sockets[p].kind == Frontend)
    && (forall p :: m.Fixed() <= p < m.Slots() ==> m.sockets[p].kind == Backend || m.sockets[p].kind == Unset)
    && (forall p :: m.Fixed() <= p < m.Slots() && m.sockets[p].kind == Unset ==> p in m.free)
    && (forall i :: 0 <= i < |m.free| ==> m.Fixed() <= m.free[i] && m.sockets[m.free[i]].kind == Unset)
    && Distinct(m.free)
    && (forall p :: m.Fixed() <= p < m.Slots() ==> Residue(m.sockets[p]))
  }

  /** A greeting is never recorded as complete.  A free slot starts the next
      connection at 0, or at 255 if its last connection ended in a failed recv. */
  predicate Residue(s: Socket) {
    if s.kind == Unset then s.readOffset == 0 || s.readOffset == 255
    else s.readOffset < FRAME || s.readOffset == 255
  }

  predicate IsBackend(m: State, p: int) {
    0 <= p < |m.sockets| && m.sockets[p].kind == Backend
  }

  /** Who holds which connection. */
  ghost predicate Crew(w: World) {
    && w.m.numWorkers == Count(w.m.handles)
    && (w.m.numWorkers == 0 || w.m.numWorkers <= w.m.maxWorkers - 2)
    && (forall x :: x in w.pending ==> Some(x) in w.m.handles)
    && (forall p :: IsBackend(w.m, p) ==> Some(w.m.sockets[p].fd) in w.m.handles && w.m.sockets[p].fd !in w.pending)
    && (forall p, q :: IsBackend(w.m, p) && IsBackend(w.m, q) && p != q ==> w.m.sockets[p].fd != w.m.sockets[q].fd)
    && (forall x :: Some(x) in w.m.handles ==> x < w.m.nextId)
  }

  /** Slot `p` will not be given out before all pending workers have connected. */
  ghost predicate Aged(w: World, p: nat) {
    forall j :: 0 <= j < |w.m.free| && j <= |w.pending| ==> w.m.free[j] != p
  }

  /** An idle entry names the connection it was pushed for, still parked, or a
      freed slot that cannot be reused while the entry is there. */
  ghost predicate Names(w: World, k: nat)
    requires w.Shape() && k < |w.m.idle|
  {
    var p := w.m.idle[k];
    && w.m.Fixed() <= p
    && (IsBackend(w.m, p) ==> w.m.masks[p] == CLOSED_ONLY && w.m.sockets[p].fd == w.owners[k])
    && (!IsBackend(w.m, p) ==> Aged(w, p))
  }

  ghost predicate Parked(w: World) {
    && w.Shape()
    && Distinct(w.m.idle)
    && forall k :: 0 <= k < |w.m.idle| ==> Names(w, k)
  }

  /** Work conservation and back-pressure. */
  ghost predicate Queue(m: State) {
    && m.Shape()
    && (m.idle == [] || m.jobs == [])
    && |m.jobs| <= JOB_QLEN
    && (m.paused <==> |m.jobs| == JOB_QLEN)
    && forall p :: 0 <= p < m.Slots() && m.sockets[p].kind == Frontend ==> m.masks[p] == if m.paused then CLOSED_ONLY else ACCEPTING
  }

  /** Order and conservation, with the accepted clients `inHand` not yet placed;
      and a connection is parked exactly while its worker is waiting. */
  ghost predicate Ledger(w: World, inHand: seq<int>) {
    && SentClients(w.log) + w.m.jobs + inHand == Kept(w.log)
    && Paired(w.log)
    && (forall p :: IsBackend(w.m, p) ==> (w.m.sockets[p].fd in Waiting(w.log) <==> p in w.m.idle))
    && w.pending !! Waiting(w.log)
    && forall x :: x in Waiting(w.log) ==> x < w.m.nextId
  }

  /** Workers may always connect; and a connection that is not parked is listened to,
      unless it was given a slot that a failed recv left. */
  ghost predicate Listening(m: State) {
    && m.Shape()
    && |m.sockets| > 1 && m.sockets[1].kind == Ipc && m.masks[1] == ACCEPTING
    && forall p :: IsBackend(m, p) && p !in m.idle && m.sockets[p].readOffset < FRAME ==> m.masks[p] == READING
  }

  ghost predicate InvWith(w: World, inHand: seq<int>) {
    w.Shape() && Table(w.m) && Crew(w) && Parked(w) && Queue(w.m) && Listening(w.m) && Ledger(w, inHand)
  }

  ghost predicate Inv(w: World) {
    InvWith(w, [])
  }

  // ---------------------------------------------------------------- the slot count

  ghost function Backends(m: State): (r: set<nat>)
    ensures forall p :: p in r <==> IsBackend(m, p)
  {
    set p: nat | p < |m.sockets| && IsBackend(m, p)
  }

  /** Slots not free are connected backends, as many as the ring is short of full. */
  lemma SlotsPartition(m: State)
    requires Table(m)
    ensures |m.free| + |Backends(m)| == m.maxWorkers - 1
  {
    var (free, used, all) := (Elements(m.free), Backends(m), Range(m.Fixed(), m.Slots()));
    RangeSize(m.Fixed(), m.Slots());
    DistinctSize(m.free);
    forall p: nat ensures p in free || p in used <==> p in all {
      Occupied(m, p);
    }
    forall p: nat ensures !(p in free && p in used) {
      Occupied(m, p);
    }
    assert free !! used;
    assert free + used == all;
  }

  /** A slot in the backend range is free or connected, and not both. */
  lemma Occupied(m: State, p: nat)
    requires Table(m)
    ensures p in m.free || IsBackend(m, p) <==> m.Fixed() <= p < m.Slots()
    ensures !(p in m.free && IsBackend(m, p))
  {
  }

  ghost function Registered(handles: seq<Option<int>>): (r: set<int>)
    ensures forall x :: x in r <==> Some(x) in handles
  {
    if handles == [] then {}
    else Registered(handles[1..]) + if handles[0].Some? then {handles[0].value} else {}
  }

  lemma {:induction false} RegisteredSize(handles: seq<Option<int>>)
    ensures |Registered(handles)| <= Count(handles)
  {
    if handles != [] {
      RegisteredSize(handles[1..]);
    }
  }

  ghost function Connected(m: State): (r: map<nat, int>)
    ensures r.Keys == Backends(m)
    ensures forall p :: p in r ==> r[p] == m.sockets[p].fd
  {
    map p | p in Backends(m) :: m.sockets[p].fd
  }

  /** The connections that are open. */
  ghost function Held(m: State): set<int> {
    Image(Backends(m), Connected(m))
  }

  lemma HeldSize(w: World)
    requires Crew(w)
    ensures |Held(w.m)| == |Backends(w.m)|
  {
    var f := Connected(w.m);
    forall p, q | p in Backends(w.m) && q in Backends(w.m) && p != q ensures f[p] != f[q] {
      assert IsBackend(w.m, p) && IsBackend(w.m, q);
    }
    InjectiveImageSize(Backends(w.m), f);
  }

  lemma HeldIsRegistered(w: World, x: int)
    requires Crew(w)
    requires x in Held(w.m)
    ensures x !in w.pending && x in Registered(w.m.handles)
  {
    var p :| p in Backends(w.m) && Connected(w.m)[p] == x;
    assert IsBackend(w.m, p);
  }

  /** Workers waiting to connect and connected backends are different registered
      workers. */
  lemma CrewSize(w: World)
    requires Crew(w)
    ensures |w.pending| + |Backends(w.m)| <= w.m.numWorkers
  {
    HeldSize(w);
    RegisteredSize(w.m.handles);
    AllRegistered(w);
    DisjointSize(w.pending, Held(w.m), Registered(w.m.handles));
  }

  lemma AllRegistered(w: World)
    requires Crew(w)
    ensures w.pending !! Held(w.m)
    ensures w.pending <= Registered(w.m.handles)
    ensures Held(w.m) <= Registered(w.m.handles)
  {
    forall x | x in Held(w.m) ensures x !in w.pending && x in Registered(w.m.handles) {
      HeldIsRegistered(w, x);
    }
    forall x | x in w.pending ensures x in Registered(w.m.handles) {
      assert Some(x) in w.m.handles;
    }
  }

  /** There are more free slots than workers that may still connect. */
  lemma SlotsSuffice(w: World)
    requires Table(w.m) && Crew(w)
    ensures w.m.maxWorkers >= 2 ==> |w.m.free| > |w.pending|
    ensures w.m.numWorkers > 0 ==> w.m.maxWorkers >= 2
  {
    SlotsPartition(w.m);
    CrewSize(w);
  }

  // ---------------------------------------------------------------- the idle ring

  /** The entries whose connection is gone. */
  ghost function Stale(m: State): (r: set<nat>)
    ensures forall p :: p in r <==> p in m.idle && !IsBackend(m, p)
  {
    set p: nat | p in m.idle && !IsBackend(m, p)
  }

  /** The connected backends that hold no idle entry. */
  ghost function Busy(m: State): (r: set<nat>)
    ensures forall p :: p in r <==> IsBackend(m, p) && p !in m.idle
  {
    set p: nat | p < |m.sockets| && IsBackend(m, p) && p !in m.idle
  }

  /** Stale entries name slots deep in the free ring. */
  lemma StaleSize(w: World)
    requires Table(w.m) && Parked(w)
    requires |w.m.free| > |w.pending|
    ensures |Stale(w.m)| + |w.pending| + 1 <= |w.m.free|
  {
    var deep := w.m.free[|w.pending| + 1..];
    DistinctSize(deep);
    forall p | p in Stale(w.m) ensures p in Elements(deep) {
      StaleIsDeep(w, p);
    }
    SubsetSize(Stale(w.m), Elements(deep));
  }

  lemma StaleIsDeep(w: World, p: nat)
    requires Table(w.m) && Parked(w)
    requires |w.m.free| > |w.pending|
    requires p in Stale(w.m)
    ensures p in w.m.free[|w.pending| + 1..]
  {
    var k :| 0 <= k < |w.m.idle| && w.m.idle[k] == p;
    assert Names(w, k);
    Occupied(w.m, p);
    var j :| 0 <= j < |w.m.free| && w.m.free[j] == p;
    assert j > |w.pending|;
    assert w.m.free[|w.pending| + 1..][j - |w.pending| - 1] == p;
  }

  /** Idle entries, workers that may still connect and connections without an
      entry together never exceed the number of workers the master may spawn. */
  lemma IdleBound(w: World, inHand: seq<int>)
    requires InvWith(w, inHand)
    ensures w.m.maxWorkers >= 2 ==> |w.m.idle| + |w.pending| + |Busy(w.m)| <= w.m.maxWorkers - 2
    ensures w.m.maxWorkers == 1 ==> w.m.idle == []
  {
    SlotsSuffice(w);
    SlotsPartition(w.m);
    if w.m.maxWorkers >= 2 {
      StaleSize(w);
      IdleSplit(w);
    }
    assert w.m.idle != [] ==> Names(w, 0);
  }

  lemma IdleSplit(w: World)
    requires Parked(w)
    ensures |w.m.idle| + |Busy(w.m)| == |Stale(w.m)| + |Backends(w.m)|
  {
    var idle := Elements(w.m.idle);
    DistinctSize(w.m.idle);
    var parked := Backends(w.m) - Busy(w.m);
    assert idle == Stale(w.m) + parked;
    assert Stale(w.m) !! parked;
    assert Backends(w.m) == Busy(w.m) + parked;
  }

  /** Assert(idle_qsize < total_sockets) before an entry is pushed. */
  lemma IdleFits(w: World, inHand: seq<int>)
    requires InvWith(w, inHand)
    ensures |w.m.idle| < w.m.Slots()
  {
    IdleBound(w, inHand);
  }
}
