/** A FIFO ring laid out in a fixed buffer: `size` entries from `head` on, wrapping. */
module Ring {

  function Next(i: nat, n: nat): (r: nat)
    requires i < n
    ensures r == (i + 1) % n && r < n
  {
    if i + 1 < n then i + 1 else 0
  }

  /** Where the entry after the last one goes. */
  function Tail(head: nat, size: nat, n: nat): (r: nat)
    requires head < n && size <= n
    ensures r < n
  {
    if head + size < n then head + size else head + size - n
  }

  ghost function Segment<T>(buf: seq<T>, head: nat, size: nat): (r: seq<T>)
    requires head < |buf| && size <= |buf|
    ensures |r| == size
  {
    if head + size <= |buf| then buf[head..head + size] else buf[head..] + buf[..head + size - |buf|]
  }

  lemma Pop<T>(buf: seq<T>, head: nat, size: nat)
    requires head < |buf| && 0 < size <= |buf|
    ensures Segment(buf, head, size)[0] == buf[head]
    ensures Segment(buf, Next(head, |buf|), size - 1) == Segment(buf, head, size)[1..]
    ensures Tail(Next(head, |buf|), size - 1, |buf|) == Tail(head, size, |buf|)
  {
  }

  lemma Push<T>(buf: seq<T>, head: nat, size: nat, x: T)
    requires head < |buf| && size < |buf|
    ensures Segment(buf[Tail(head, size, |buf|) := x], head, size + 1) == Segment(buf, head, size) + [x]
    ensures Tail(head, size + 1, |buf|) == Next(Tail(head, size, |buf|), |buf|)
  {
  }
}
