/** What the dispatcher guarantees in every state it can reach. */
module MasterTheorems {
  import opened Base
  import opened Hello
  import opened MasterModel
  import opened MasterInv
  import opened MasterSteps
  import opened MasterRuns

  /** Some whole wake-ups, and a last one in which `done` events are handled. */
  datatype Run = Run(listeners: nat, maxWorkers: nat, batches: seq<seq<Event>>, last: seq<Event>, done: nat)

  ghost predicate Starts(run: Run) {
    run.maxWorkers >= 1 && IsRun(Startup(run.listeners, run.maxWorkers), run.batches)
  }

  /** The world when the last batch was reported. */
  ghost function AtPoll(run: Run): World
    requires Starts(run)
  {
    End(Startup(run.listeners, run.maxWorkers), run.batches)
  }

  ghost predicate Reaches(run: Run, w: World) {
    && Starts(run)
    && Polled(AtPoll(run).m, run.last)
    && run.done <= |run.last|
    && Admitted(AtPoll(run), run.last[..run.done])
    && w == HandleAll(AtPoll(run), run.last[..run.done])
  }

  /** Handling the first `n` events starts with the first. */
  lemma Unroll(b: World, rest: seq<Event>, n: nat)
    requires b.Shape() && 0 < n <= |rest| && Admitted(b, rest[..n])
    ensures EnvironmentOk(b, rest[0])
    ensures Admitted(Deliver(b, rest[0]), rest[1..][..n - 1])
    ensures HandleAll(b, rest[..n]) == HandleAll(Deliver(b, rest[0]), rest[1..][..n - 1])
  {
    assert rest[..n][0] == rest[0] && rest[..n][1..] == rest[1..][..n - 1];
  }

  /** What the recursive step needs, and what it gives back. */
  lemma FirstOfPart(a: World, b: World, rest: seq<Event>, n: nat)
    requires b.Shape() && Inv(a) && Inv(b) && Ahead(a, b, rest) && 0 < n <= |rest| && Admitted(b, rest[..n])
    ensures EnvironmentOk(b, rest[0])
    ensures var c := Deliver(b, rest[0]);
      && Inv(c) && Ahead(a, c, rest[1..]) && Admitted(c, rest[1..][..n - 1])
      && HandleAll(b, rest[..n]) == HandleAll(c, rest[1..][..n - 1])
  {
    Unroll(b, rest, n);
    FirstEvent(a, b, rest);
  }

  lemma {:induction false} PartBatch(a: World, b: World, rest: seq<Event>, n: nat)
    requires b.Shape() && Inv(a) && Inv(b) && Ahead(a, b, rest) && n <= |rest| && Admitted(b, rest[..n])
    ensures Inv(HandleAll(b, rest[..n])) && Ahead(a, HandleAll(b, rest[..n]), rest[n..])
    decreases n
  {
    if n == 0 {
      assert rest[..0] == [] && rest[0..] == rest;
    } else {
      FirstOfPart(a, b, rest, n);
      PartBatch(a, Deliver(b, rest[0]), rest[1..], n - 1);
      assert rest[1..][n - 1..] == rest[n..];
    }
  }

  lemma ReachedIsSafe(run: Run, w: World)
    requires Reaches(run, w)
    ensures Inv(w) && Inv(AtPoll(run))
    ensures Ahead(AtPoll(run), w, run.last[run.done..])
  {
    StartupHolds(run.listeners, run.maxWorkers);
    RunKeeps(Startup(run.listeners, run.maxWorkers), run.batches);
    PartBatch(AtPoll(run), AtPoll(run), run.last, run.done);
  }

  /** No access outside an array and no failed Assert; the idle ring and the spawn
      limit keep within their bounds; and no client waits while an idle entry
      exists. */
  lemma NothingGoesWrong(run: Run, w: World)
    requires Reaches(run, w)
    ensures !w.m.fault
    ensures w.m.maxWorkers >= 2 ==> |w.m.idle| + |w.pending| + |Busy(w.m)| <= w.m.maxWorkers - 2
    ensures w.pending != {} ==> w.m.free != []
    ensures w.m.idle == [] || w.m.jobs == []
    ensures w.m.paused <==> |w.m.jobs| == JOB_QLEN
    ensures forall p :: 0 <= p < w.m.Slots() && w.m.sockets[p].kind == Frontend ==>
      (w.m.masks[p] == if w.m.paused then CLOSED_ONLY else ACCEPTING)
    ensures |w.m.masks| == |w.m.sockets| > 1 && w.m.sockets[1].kind == Ipc && w.m.masks[1] == ACCEPTING
  {
    ReachedIsSafe(run, w);
    IdleBound(w, []);
    SlotsSuffice(w);
    CrewSize(w);
  }

  /** An idle entry names the connection it was pushed for, which has had no client
      since its worker announced itself; or a freed slot nobody has taken. */
  lemma IdleEntriesDoNotAlias(run: Run, w: World, k: nat)
    requires Reaches(run, w) && k < |w.m.idle|
    ensures var s := w.m.sockets[w.m.idle[k]];
      || (s.kind == Backend && s.fd == w.owners[k] && s.fd in Waiting(w.log) && w.m.masks[w.m.idle[k]] == CLOSED_ONLY)
      || (s.kind == Unset && w.m.idle[k] in w.m.free)
  {
    ReachedIsSafe(run, w);
    assert Names(w, k);
    Occupied(w.m, w.m.idle[k]);
  }

  /** Every connected worker that has no idle entry is listened to, unless a failed
      recv left its slot; so its next greeting is received. */
  lemma BusyWorkersAreListenedTo(run: Run, w: World, p: nat)
    requires Reaches(run, w) && IsBackend(w.m, p) && p !in w.m.idle
    ensures w.m.sockets[p].readOffset < FRAME || w.m.sockets[p].readOffset == 255
    ensures w.m.sockets[p].readOffset < FRAME ==> w.m.masks[p] == READING
  {
    ReachedIsSafe(run, w);
    Occupied(w.m, p);
    assert Residue(w.m.sockets[p]);
  }

  /** The idle entry a client is offered to in vain: the connection is gone, or
      breaks. */
  predicate Passed(w: World, broken: set<int>, k: nat)
    requires w.Shape() && k < |w.m.idle|
  {
    !IsBackend(w.m, w.m.idle[k]) || w.m.sockets[w.m.idle[k]].fd in broken
  }

  /** `r` is the outcome when entry `k` is the oldest that takes the client, or when
      `k` is past the end because none does: all older entries are gone. */
  ghost predicate Chosen(w: World, client: int, broken: set<int>, k: nat, r: (World, bool)) {
    && w.Shape() && r.0.Shape()
    && k <= |w.m.idle|
    && (forall j :: 0 <= j < k ==> Passed(w, broken, j))
    && (r.1 <==> k < |w.m.idle|)
    && (if r.1 then
          && !Passed(w, broken, k)
          && r.0.m.idle == w.m.idle[k + 1..]
          && r.0.log == w.log + [Sent(client, w.m.sockets[w.m.idle[k]].fd)]
        else
          r.0.m.idle == [] && r.0.log == w.log)
  }

  /** The world without its oldest idle entry and the connection behind that. */
  function AfterPassing(w: World): (r: World)
    requires w.Shape() && w.m.idle != []
    ensures r.Shape() && r.m.idle == w.m.idle[1..] && |r.m.sockets| == |w.m.sockets| && r.log == w.log
  {
    if IsBackend(w.m, w.m.idle[0]) then Close(PopIdle(w), w.m.idle[0]) else PopIdle(w)
  }

  /** Passing one entry changes no other. */
  lemma SameAfterPop(w: World, broken: set<int>, j: nat)
    requires w.Shape() && Distinct(w.m.idle) && j + 1 < |w.m.idle|
    ensures AfterPassing(w).m.sockets[AfterPassing(w).m.idle[j]] == w.m.sockets[w.m.idle[j + 1]]
    ensures Passed(AfterPassing(w), broken, j) <==> Passed(w, broken, j + 1)
  {
  }

  lemma ChosenShift(w: World, client: int, broken: set<int>, k: nat, r: (World, bool))
    requires w.Shape() && Distinct(w.m.idle) && w.m.idle != [] && Passed(w, broken, 0)
    requires Chosen(AfterPassing(w), client, broken, k, r)
    ensures Chosen(w, client, broken, k + 1, r)
  {
    forall j | 0 <= j < k + 1 ensures Passed(w, broken, j) {
      if j > 0 {
        SameAfterPop(w, broken, j - 1);
      }
    }
    if r.1 {
      SameAfterPop(w, broken, k);
    }
  }

  lemma DrainPass(w: World, client: int, broken: set<int>)
    requires w.Shape() && w.m.idle != [] && Passed(w, broken, 0)
    ensures Drain(w, client, broken) == Drain(AfterPassing(w), client, broken)
  {
  }

  /** A client goes to the oldest idle entry that can take it, and to nobody if
      there is none.  (The entries of every reachable world are distinct.) */
  lemma {:induction false} OldestIdleWorkerIsChosen(w: World, client: int, broken: set<int>) returns (k: nat)
    requires w.Shape() && Distinct(w.m.idle)
    ensures Chosen(w, client, broken, k, Drain(w, client, broken))
    decreases |w.m.idle|
  {
    if w.m.idle == [] || !Passed(w, broken, 0) {
      k := 0;
    } else {
      k := OldestIdleWorkerIsChosen(AfterPassing(w), client, broken);
      DrainPass(w, client, broken);
      ChosenShift(w, client, broken, k, Drain(w, client, broken));
      k := k + 1;
    }
  }

  /** Spawning and queueing, by what they leave. */
  lemma UnplacedOutcome(w: World, client: int, registers: bool)
    requires w.Shape() && w.m.idle == [] && |w.m.jobs| <= JOB_QLEN && w.m.numWorkers == Count(w.m.handles)
    ensures var r := Enqueue(Spawn(w, registers), client);
      && r.m.idle == []
      && r.m.jobs == (if |w.m.jobs| < JOB_QLEN then w.m.jobs + [client] else w.m.jobs)
      && r.log == (if |w.m.jobs| < JOB_QLEN then w.log else w.log + [Refused(client)])
      && r.pending == w.pending + (if registers && w.m.numWorkers < w.m.maxWorkers - 2 then {w.m.nextId} else {})
      && r.m.numWorkers == w.m.numWorkers + (if registers && w.m.numWorkers < w.m.maxWorkers - 2 then 1 else 0)
      && r.m.nextId == w.m.nextId + (if w.m.numWorkers < w.m.maxWorkers - 2 then 1 else 0)
  {
    if w.m.numWorkers < w.m.maxWorkers - 2 && FirstNull(w.m.handles) == |w.m.handles| {
      FullCount(w.m.handles);
    }
  }

  /** A client that no idle worker takes is appended to the waiting ones, unless
      those are as many as there may be; and a worker is started for it if the
      limit allows. */
  lemma UnplacedClientWaits(w: World, client: int, broken: set<int>, registers: bool)
    requires Inv(w)
    requires forall k :: 0 <= k < |w.m.idle| ==> Passed(w, broken, k)
    ensures var r := OnFrontend(w, client, broken, registers);
      && r.m.idle == []
      && r.m.jobs == (if |w.m.jobs| < JOB_QLEN then w.m.jobs + [client] else w.m.jobs)
      && r.log == w.log + (if |w.m.jobs| < JOB_QLEN then [Accepted(client)] else [Accepted(client), Refused(client)])
      && r.pending == w.pending + (if registers && w.m.numWorkers < w.m.maxWorkers - 2 then {w.m.nextId} else {})
      && r.m.numWorkers == w.m.numWorkers + (if registers && w.m.numWorkers < w.m.maxWorkers - 2 then 1 else 0)
      && r.m.nextId == w.m.nextId + (if w.m.numWorkers < w.m.maxWorkers - 2 then 1 else 0)
  {
    var w0 := w.(log := w.log + [Accepted(client)]);
    var k := OldestIdleWorkerIsChosen(w0, client, broken);
    assert k < |w.m.idle| ==> Passed(w, broken, k);
    UntouchedByDrain(w0, client, broken);
    UnplacedOutcome(Drain(w0, client, broken).0, client, registers);
    assert w0.log + [Refused(client)] == w.log + [Accepted(client), Refused(client)];
  }

  lemma {:induction false} UntouchedByDrain(w: World, client: int, broken: set<int>)
    requires w.Shape()
    ensures var r := Drain(w, client, broken).0;
      && r.pending == w.pending && r.m.jobs == w.m.jobs && r.m.handles == w.m.handles
      && r.m.numWorkers == w.m.numWorkers && r.m.maxWorkers == w.m.maxWorkers && r.m.nextId == w.m.nextId
    decreases |w.m.idle|
  {
    if w.m.idle != [] {
      var p := w.m.idle[0];
      var w1 := PopIdle(w);
      if w1.m.sockets[p].kind != Backend {
        UntouchedByDrain(w1, client, broken);
      } else if w1.m.sockets[p].fd in broken {
        UntouchedByDrain(Close(w1, p), client, broken);
      }
    }
  }

  /** When an event's turn comes, its slot holds the connection it was reported
      for, or nothing. */
  lemma EventsStayFresh(run: Run, w: World)
    requires Reaches(run, w) && run.done < |run.last|
    ensures var (p, before) := (run.last[run.done].slot, AtPoll(run).m.sockets);
      && p < |w.m.sockets| == |before|
      && (|| (w.m.sockets[p].kind == before[p].kind && w.m.sockets[p].fd == before[p].fd)
          || (before[p].kind == Backend && w.m.sockets[p].kind == Unset))
  {
    ReachedIsSafe(run, w);
    assert Unmoved(AtPoll(run).m, w.m, run.last[run.done..][0].slot);
  }

  /** The clients handed out so far, and then the waiting ones, are the accepted
      ones less those turned away, in the order of acceptance. */
  lemma ClientsKeepTheirOrder(run: Run, w: World)
    requires Reaches(run, w)
    ensures SentClients(w.log) + w.m.jobs == Kept(w.log)
  {
    ReachedIsSafe(run, w);
    assert SentClients(w.log) + w.m.jobs + [] == SentClients(w.log) + w.m.jobs;
  }

  // ---------------------------------------------------------------- reading the history forwards

  /** Entry `j` is worker `x`'s last announcement or client before entry `i`. */
  predicate LastOf(log: seq<Entry>, x: int, j: int, i: int) {
    && 0 <= j < i <= |log|
    && (log[j] == Announced(x) || (log[j].Sent? && log[j].worker == x))
    && forall k :: j < k < i ==> !(log[k] == Announced(x)) && !(log[k].Sent? && log[k].worker == x)
  }

  lemma {:induction false} WaitingSince(log: seq<Entry>, x: int) returns (j: int)
    requires x in Waiting(log)
    ensures LastOf(log, x, j, |log|) && log[j] == Announced(x)
  {
    var (front, e) := (log[..|log| - 1], log[|log| - 1]);
    if e == Announced(x) {
      j := |log| - 1;
    } else {
      j := WaitingSince(front, x);
      assert log[j] == front[j];
      forall k | j < k < |log| ensures !(log[k] == Announced(x)) && !(log[k].Sent? && log[k].worker == x) {
        if k < |log| - 1 {
          assert log[k] == front[k];
        }
      }
    }
  }

  lemma {:induction false} PairedPrefix(log: seq<Entry>, i: nat)
    requires Paired(log) && i <= |log|
    ensures Paired(log[..i])
    decreases |log| - i
  {
    if i < |log| {
      PairedPrefix(log, i + 1);
      assert log[..i + 1][..i] == log[..i];
    } else {
      assert log[..i] == log;
    }
  }

  /** In a paired history, a client follows an announcement. */
  lemma SentAfterAnnounced(log: seq<Entry>, i: nat) returns (j: int)
    requires Paired(log) && i < |log| && log[i].Sent?
    ensures LastOf(log, log[i].worker, j, i) && log[j] == Announced(log[i].worker)
  {
    var (upTo, x) := (log[..i + 1], log[i].worker);
    PairedPrefix(log, i + 1);
    assert upTo[..i] == log[..i];
    j := WaitingSince(log[..i], x);
    forall k | 0 <= k < i ensures log[..i][k] == log[k] {
    }
  }

  /** A client only ever goes to a worker that announced itself idle and has had no
      client since. */
  lemma ClientsGoToIdleWorkers(run: Run, w: World, i: nat) returns (j: int)
    requires Reaches(run, w) && i < |w.log| && w.log[i].Sent?
    ensures LastOf(w.log, w.log[i].worker, j, i) && w.log[j] == Announced(w.log[i].worker)
  {
    ReachedIsSafe(run, w);
    j := SentAfterAnnounced(w.log, i);
  }
}
