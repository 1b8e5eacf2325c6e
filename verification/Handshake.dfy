/**
 The greeting over a stream socket: however the worker's sends and the master's
 receives cut the bytes, the master sees the frames the worker wrote.
 */
module Handshake {
  import opened Base
  import opened Hello

  // ---------------------------------------------------------------- the receiving side

  /** The ids announced, and the offset reached unless the connection was refused. */
  datatype Outcome = Outcome(ids: seq<seq<byte>>, open: Option<nat>)

  function Flatten(chunks: seq<seq<byte>>): seq<byte> {
    if chunks == [] then [] else chunks[0] + Flatten(chunks[1..])
  }

  /** Each chunk is no longer than what `recv` was asked for at that point. */
  ghost predicate Receivable(f: Framing, chunks: seq<seq<byte>>)
    requires f.Ok()
    decreases |chunks|
  {
    chunks == [] ||
    (&& |chunks[0]| <= FRAME - f.offset
     && match Receive(f, chunks[0])
        case Rejected => true
        case Partial(g) => Receivable(g, chunks[1..])
        case Complete(g) => Receivable(g, chunks[1..]))
  }

  /** The master's receives, one chunk after the other, until it closes. */
  ghost function Feed(f: Framing, chunks: seq<seq<byte>>): Outcome
    requires f.Ok() && Receivable(f, chunks)
    decreases |chunks|
  {
    if chunks == [] then Outcome([], Some(f.offset))
    else
      match Receive(f, chunks[0])
      case Rejected => Outcome([], None)
      case Partial(g) => Feed(g, chunks[1..])
      case Complete(g) =>
        var rest := Feed(g, chunks[1..]);
        Outcome([g.workerId] + rest.ids, rest.open)
  }

  predicate Greets(bytes: seq<byte>) {
    forall k :: 0 <= k < |bytes| && k < 8 ==> bytes[k] == HELLO[k]
  }

  /** The frames in a stream, by position only: 8 bytes of greeting and an id each. */
  function Frames(bytes: seq<byte>): Outcome {
    if !Greets(bytes) then Outcome([], None)
    else if |bytes| < FRAME then Outcome([], Some(|bytes|))
    else
      var rest := Frames(bytes[FRAME..]);
      Outcome([bytes[8..FRAME]] + rest.ids, rest.open)
  }

  /** `f` is what the master keeps after the part `got` of a frame. */
  ghost predicate Tracks(f: Framing, got: seq<byte>) {
    && f.Ok()
    && f.offset == |got|
    && Greets(got)
    && forall k :: 8 <= k < |got| ==> f.workerId[k - 8] == got[k]
  }

  /** The comparison looks at just the bytes that are new. */
  lemma MatchesIff(f: Framing, got: seq<byte>, chunk: seq<byte>)
    requires Tracks(f, got) && |chunk| <= FRAME - f.offset
    ensures Matches(f.offset, chunk, Checked(f.offset, |chunk|)) <==> Greets(got + chunk)
  {
    var i := Checked(f.offset, |chunk|);
    if !Matches(f.offset, chunk, i) {
      var k :| 0 <= k < i && chunk[k] != HELLO[f.offset + k];
      assert (got + chunk)[f.offset + k] == chunk[k];
    } else {
      forall k | 0 <= k < |got + chunk| && k < 8 ensures (got + chunk)[k] == HELLO[k] {
        if k >= |got| {
          assert (got + chunk)[k] == chunk[k - |got|];
        }
      }
    }
  }

  lemma ReceiveTracks(f: Framing, got: seq<byte>, chunk: seq<byte>)
    requires Tracks(f, got) && |chunk| <= FRAME - f.offset
    ensures Receive(f, chunk).Rejected? <==> !Greets(got + chunk)
    ensures Receive(f, chunk).Partial? ==> Tracks(Receive(f, chunk).f, got + chunk)
    ensures Receive(f, chunk).Complete? ==> |got + chunk| == FRAME && Receive(f, chunk).f == Framing(0, (got + chunk)[8..])
  {
    MatchesIff(f, got, chunk);
  }

  /** Frames decide on the first frame's bytes alone. */
  lemma FramesOfPrefix(a: seq<byte>, b: seq<byte>)
    requires |a| <= FRAME
    ensures !Greets(a) ==> Frames(a + b) == Outcome([], None)
    ensures |a| == FRAME && Greets(a) ==>
      Frames(a + b) == Outcome([a[8..]] + Frames(b).ids, Frames(b).open)
  {
    if !Greets(a) {
      var k :| 0 <= k < |a| && k < 8 && a[k] != HELLO[k];
      assert (a + b)[k] == a[k];
    } else if |a| == FRAME {
      assert (a + b)[FRAME..] == b;
      assert (a + b)[8..FRAME] == a[8..];
    }
  }

  /** The master's byte-by-byte bookkeeping reads the frames of the stream. */
  lemma {:induction false} FeedReadsFrames(f: Framing, got: seq<byte>, chunks: seq<seq<byte>>)
    requires Tracks(f, got) && Receivable(f, chunks)
    ensures Feed(f, chunks) == Frames(got + Flatten(chunks))
    decreases |chunks|
  {
    if chunks == [] {
      assert got + [] == got;
    } else {
      ReceiveTracks(f, got, chunks[0]);
      var next := got + chunks[0];
      var rest := Flatten(chunks[1..]);
      assert got + Flatten(chunks) == next + rest;
      FramesOfPrefix(next, rest);
      match Receive(f, chunks[0])
      case Rejected =>
      case Partial(g) =>
        FeedReadsFrames(g, next, chunks[1..]);
      case Complete(g) =>
        FeedReadsFrames(g, [], chunks[1..]);
        assert [] + rest == rest;
    }
  }

  /** What the master makes of a stream does not depend on how it is cut. */
  lemma ChunkingDoesNotMatter(id: seq<byte>, one: seq<seq<byte>>, two: seq<seq<byte>>)
    requires |id| == 4
    requires Receivable(Framing(0, id), one) && Receivable(Framing(0, id), two)
    requires Flatten(one) == Flatten(two)
    ensures Feed(Framing(0, id), one) == Feed(Framing(0, id), two)
  {
    FeedReadsFrames(Framing(0, id), [], one);
    FeedReadsFrames(Framing(0, id), [], two);
  }

  // ---------------------------------------------------------------- the id in four bytes

  const TWO_TO_THE_32 := 0x1_0000_0000

  function IdBytes(id: int): (r: seq<byte>)
    requires 0 <= id < TWO_TO_THE_32
    ensures |r| == 4
  {
    [id % 256, id / 256 % 256, id / 65536 % 256, id / 16777216]
  }

  function IdOf(bytes: seq<byte>): int
    requires |bytes| == 4
  {
    var (a: int, b: int, c: int, d: int) := (bytes[0], bytes[1], bytes[2], bytes[3]);
    a + 256 * b + 65536 * c + 16777216 * d
  }

  lemma IdRoundTrip(id: int)
    requires 0 <= id < TWO_TO_THE_32
    ensures IdOf(IdBytes(id)) == id
  {
    var (q, r) := (id / 256, id / 65536);
    assert id == q * 256 + id % 256;
    assert q / 256 == r && q == r * 256 + q % 256;
    assert r / 256 == id / 16777216 && r == id / 16777216 * 256 + r % 256;
  }

  // ---------------------------------------------------------------- the sending side

  /** The 12 bytes a worker sends. */
  function Greeting(id: int): (r: seq<byte>)
    requires 0 <= id < TWO_TO_THE_32
    ensures |r| == FRAME
  {
    HELLO + IdBytes(id)
  }

  /** The first `n` bytes of greeting after greeting. */
  function Greetings(id: int, n: nat): (r: seq<byte>)
    requires 0 <= id < TWO_TO_THE_32
    ensures |r| == n
  {
    seq(n, i requires 0 <= i < n => Greeting(id)[i % FRAME])
  }

  lemma GreetingsGreet(id: int, n: nat)
    requires 0 <= id < TWO_TO_THE_32
    ensures Greets(Greetings(id, n))
  {
    forall k | 0 <= k < n && k < 8 ensures Greetings(id, n)[k] == HELLO[k] {
      assert Greetings(id, n)[k] == Greeting(id)[k];
    }
  }

  lemma FirstGreeting(id: int, n: nat)
    requires 0 <= id < TWO_TO_THE_32 && n >= FRAME
    ensures Greetings(id, n)[8..FRAME] == IdBytes(id)
    ensures Greetings(id, n)[FRAME..] == Greetings(id, n - FRAME)
  {
    var s := Greetings(id, n);
    forall k | 8 <= k < FRAME ensures s[k] == IdBytes(id)[k - 8] {
      assert s[k] == Greeting(id)[k];
    }
  }

  lemma {:induction false} GreetingsAreFrames(id: int, n: nat)
    requires 0 <= id < TWO_TO_THE_32
    ensures Frames(Greetings(id, n)) == Outcome(seq(n / FRAME, i => IdBytes(id)), Some(n % FRAME))
  {
    GreetingsGreet(id, n);
    if n >= FRAME {
      FirstGreeting(id, n);
      GreetingsAreFrames(id, n - FRAME);
      assert seq(n / FRAME, i => IdBytes(id)) == [IdBytes(id)] + seq((n - FRAME) / FRAME, i => IdBytes(id));
    }
  }

  /** Whatever part of a worker's greetings has arrived, in whatever pieces, the
      master has not refused it, has announced the worker's own id once for each
      whole greeting, and stands at the right place in the next one. */
  lemma WorkerIsUnderstood(id: int, was: seq<byte>, chunks: seq<seq<byte>>)
    requires 0 <= id < TWO_TO_THE_32 && |was| == 4
    requires Receivable(Framing(0, was), chunks)
    requires Flatten(chunks) == Greetings(id, |Flatten(chunks)|)
    ensures var n := |Flatten(chunks)|;
      Feed(Framing(0, was), chunks) == Outcome(seq(n / FRAME, i => IdBytes(id)), Some(n % FRAME))
    ensures forall x :: x in Feed(Framing(0, was), chunks).ids ==> |x| == 4 && IdOf(x) == id
  {
    FeedReadsFrames(Framing(0, was), [], chunks);
    assert [] + Flatten(chunks) == Flatten(chunks);
    GreetingsAreFrames(id, |Flatten(chunks)|);
    IdRoundTrip(id);
  }

  /** What the worker's socket is armed for; WAIT_WRITE and WAIT_READ are the same
      number, so this is what tells the two phases apart. */
  datatype Armed = Writeable | Readable

  class Worker {
    const workerId: int
    const hello: array<byte>
    var sent: nat
    var armed: Armed
    /** The jobs taken, and every byte sent so far. */
    ghost var jobs: nat
    ghost var stream: seq<byte>

    ghost predicate Valid()
      reads this, hello
    {
      && 0 <= workerId < TWO_TO_THE_32
      && hello[..] == Greeting(workerId)
      && sent < FRAME
      && stream == Greetings(workerId, |stream|)
      && |stream| == FRAME * (jobs + if armed.Readable? then 1 else 0) + sent
      && (armed.Readable? ==> sent == 0)
    }

    constructor (id: int)
      requires 0 <= id < TWO_TO_THE_32
      ensures Valid() && fresh(hello) && stream == [] && armed == Writeable && jobs == 0 && workerId == id
    {
      var g := Greeting(id);
      workerId := id;
      hello := new byte[FRAME](i requires 0 <= i < FRAME => g[i]);
      sent, armed := 0, Writeable;
      jobs, stream := 0, [];
    }

    /** on_writeable(), with the result of send(): at most what was offered, or
        failure. */
    method OnWriteable(nbytes: int)
      requires Valid() && armed == Writeable && nbytes <= FRAME - sent
      modifies this
      ensures Valid() && jobs == old(jobs)
      ensures nbytes < 0 ==> stream == old(stream) && armed == Writeable && sent == old(sent)
      ensures nbytes >= 0 ==> stream == old(stream) + hello[old(sent)..old(sent) + nbytes]
      ensures armed == Readable <==> |stream| == FRAME * (jobs + 1)
    {
      if nbytes < 0 {
        return;
      }
      Continue(workerId, |stream|, sent, nbytes, jobs);
      stream := stream + hello[sent..sent + nbytes];
      sent := sent + nbytes;
      if sent == FRAME {
        armed := Readable;
        sent := 0;
      }
    }

    /** on_readable() that got a job: back to announcing. */
    method OnReadable()
      requires Valid() && armed == Readable
      modifies this
      ensures Valid() && armed == Writeable && stream == old(stream) && jobs == old(jobs) + 1
    {
      jobs := jobs + 1;
      armed := Writeable;
    }

    /** main_loop()'s two tests for one event, which reports nothing that the
        socket was not armed for. */
    method OnEvent(writeable: bool, readable: bool, nbytes: int)
      requires Valid() && (writeable ==> armed == Writeable) && (readable ==> armed == Readable)
      requires writeable ==> nbytes <= FRAME - sent
      modifies this
      ensures Valid() && old(stream) <= stream
      ensures |stream| == |old(stream)| + if writeable && nbytes > 0 then nbytes else 0
      ensures jobs == if readable then old(jobs) + 1 else old(jobs)
    {
      if writeable {
        OnWriteable(nbytes);
      }
      if readable {
        OnReadable();
      }
    }
  }

  lemma InFrame(jobs: nat, i: nat)
    requires i < FRAME
    ensures (FRAME * jobs + i) % FRAME == i
  {
  }

  lemma Continue(id: int, n: nat, sent: nat, more: nat, jobs: nat)
    requires 0 <= id < TWO_TO_THE_32 && n == FRAME * jobs + sent && sent + more <= FRAME
    ensures Greetings(id, n + more) == Greetings(id, n) + Greeting(id)[sent..sent + more]
  {
    var (all, next) := (Greetings(id, n + more), Greeting(id)[sent..sent + more]);
    forall i | 0 <= i < n + more ensures all[i] == (Greetings(id, n) + next)[i] {
      if i >= n {
        InFrame(jobs, sent + i - n);
      }
    }
  }
}
