/**
 The 12-byte greeting a worker sends whenever it becomes idle: the 8 characters
 of BACKEND_HELLO and then the 4 bytes of its worker id.  This module models how
 the master consumes it from a stream socket, one `recv` at a time.
 */
module Hello {
  import opened Base

  const HELLO: seq<byte> := [82, 85, 83, 84, 73, 67, 65, 33]  // "RUSTICA!"
  const FRAME := 12

  /** What a `Socket` remembers between two receives. */
  datatype Framing = Framing(offset: nat, workerId: seq<byte>) {
    predicate Ok() { offset < FRAME && |workerId| == 4 }
  }

  datatype Verdict = Rejected | Partial(f: Framing) | Complete(f: Framing)

  /** How many of the next `received` bytes belong to the greeting text. */
  function Checked(offset: nat, received: nat): (i: nat)
    ensures i <= received && offset + i <= (if offset < 8 then 8 else offset)
  {
    if offset >= 8 then 0 else if received < 8 - offset then received else 8 - offset
  }

  predicate Matches(offset: nat, chunk: seq<byte>, i: nat)
    requires i <= |chunk|
    requires offset + i <= 8 || i == 0
  {
    forall k :: 0 <= k < i ==> chunk[k] == HELLO[offset + k]
  }

  /** memcpy of `data` into `id` at byte `at`. */
  function Patch(id: seq<byte>, at: nat, data: seq<byte>): (r: seq<byte>)
    requires at + |data| <= |id|
    ensures |r| == |id|
  {
    id[..at] + data + id[at + |data|..]
  }

  /** One successful `recv` of `chunk`. */
  function Receive(f: Framing, chunk: seq<byte>): (v: Verdict)
    requires f.Ok() && |chunk| <= FRAME - f.offset
    ensures v.Partial? || v.Complete? ==> v.f.Ok()
  {
    var i := Checked(f.offset, |chunk|);
    if !Matches(f.offset, chunk, i) then Rejected
    else if |chunk| > i then
      var id := Patch(f.workerId, if f.offset < 8 then 0 else f.offset - 8, chunk[i..]);
      if f.offset + |chunk| == FRAME then Complete(Framing(0, id))
      else Partial(Framing(f.offset + |chunk|, id))
    else Partial(Framing(f.offset + |chunk|, f.workerId))
  }

  /** The comparison loop and the memcpy of one receive. */
  method Scan(f: Framing, buf: seq<byte>) returns (v: Verdict)
    requires f.Ok() && |buf| <= FRAME - f.offset
    ensures v == Receive(f, buf)
  {
    var received := |buf|;
    var checked := if f.offset >= 8 then 0 else if received < 8 - f.offset then received else 8 - f.offset;
    var i := 0;
    while i < checked
      invariant 0 <= i <= checked
      invariant forall k :: 0 <= k < i ==> buf[k] == HELLO[f.offset + k]
    {
      if HELLO[f.offset + i] != buf[i] {
        return Rejected;
      }
      i := i + 1;
    }
    if received - i > 0 {
      var id := Patch(f.workerId, if f.offset < 8 then 0 else f.offset - 8, buf[i..]);
      if f.offset + received == FRAME {
        return Complete(Framing(0, id));
      }
      return Partial(Framing(f.offset + received, id));
    }
    return Partial(Framing(f.offset + received, f.workerId));
  }
}
