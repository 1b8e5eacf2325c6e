/**
 datatypes.c: objects that keep another object alive do so through a node in the
 execution environment's chain of local references, which lies inside the object
 itself.  Finalizers unlink such nodes in whatever order the collector chooses,
 while the converters of query.c push and pop nodes that lie on the C stack.
 */
module LocalRefs {
  import opened Base

  /** wasm_local_obj_ref_t. */
  class LocalRef {
    var prev: LocalRef?
    var val: int

    constructor ()
      ensures prev == null
    {
      prev, val := null, 0;
    }
  }

  /** Those of `born` that are not in `dead`, in the same order. */
  ghost function Living(born: seq<LocalRef>, dead: set<LocalRef>): seq<LocalRef> {
    if born == [] then []
    else if born[0] in dead then Living(born[1..], dead)
    else [born[0]] + Living(born[1..], dead)
  }

  lemma {:induction false} InLiving(born: seq<LocalRef>, dead: set<LocalRef>, x: LocalRef)
    ensures x in Living(born, dead) <==> x in born && x !in dead
  {
    if born != [] {
      InLiving(born[1..], dead, x);
    }
  }

  ghost function Without(s: seq<LocalRef>, k: nat): seq<LocalRef>
    requires k < |s|
  {
    s[..k] + s[k + 1..]
  }

  lemma {:induction false} LivingDistinct(born: seq<LocalRef>, dead: set<LocalRef>)
    requires Distinct(born)
    ensures Distinct(Living(born, dead))
  {
    if born != [] {
      LivingDistinct(born[1..], dead);
      InLiving(born[1..], dead, born[0]);
    }
  }

  /** The death of one reference takes one element out. */
  lemma {:induction false} OneDies(born: seq<LocalRef>, dead: set<LocalRef>, k: nat)
    requires Distinct(born) && k < |Living(born, dead)|
    ensures Living(born, dead + {Living(born, dead)[k]}) == Without(Living(born, dead), k)
  {
    var (rest, all) := (born[1..], Living(born, dead));
    if born[0] in dead {
      OneDies(rest, dead, k);
    } else if k == 0 {
      Untouched(rest, dead, born[0]);
      assert Without(all, 0) == all[1..];
    } else {
      var tail := Living(rest, dead);
      InLiving(rest, dead, tail[k - 1]);
      OneDies(rest, dead, k - 1);
      NotFirst(born[0], tail, k);
    }
  }

  lemma NotFirst(x: LocalRef, tail: seq<LocalRef>, k: nat)
    requires 0 < k <= |tail|
    ensures ([x] + tail)[k] == tail[k - 1]
    ensures Without([x] + tail, k) == [x] + Without(tail, k - 1)
  {
  }

  lemma {:induction false} Untouched(born: seq<LocalRef>, dead: set<LocalRef>, x: LocalRef)
    requires x !in born
    ensures Living(born, dead + {x}) == Living(born, dead)
  {
    if born != [] {
      Untouched(born[1..], dead, x);
    }
  }

  /** The node behind node `i`. */
  ghost function Behind(nodes: seq<LocalRef>, i: nat): LocalRef? {
    if i + 1 < |nodes| then nodes[i + 1] else null
  }

  /** The chain that starts at `first` and links exactly `nodes`. */
  ghost predicate Linked(first: LocalRef?, nodes: seq<LocalRef>)
    reads nodes
  {
    && Distinct(nodes)
    && first == (if nodes == [] then null else nodes[0])
    && forall i :: 0 <= i < |nodes| ==> nodes[i].prev == Behind(nodes, i)
  }

  class ExecEnv {
    var current: LocalRef?
    /** What `current` leads to. */
    ghost var chain: seq<LocalRef>
    /** Every reference ever pushed, newest first, and those whose owner is gone. */
    ghost var born: seq<LocalRef>
    ghost var dead: set<LocalRef>

    /** The chain is exactly the live references, newest first. */
    ghost predicate Valid()
      reads this, chain
    {
      && Linked(current, chain)
      && Distinct(born)
      && chain == Living(born, dead)
    }

    constructor ()
      ensures Valid() && chain == [] && born == [] && dead == {}
    {
      current := null;
      chain, born, dead := [], [], {};
    }

    /** wasm_runtime_push_local_obj_ref(). */
    method Push(node: LocalRef)
      requires Valid() && node !in born && node !in dead
      modifies this, node
      ensures Valid()
      ensures chain == [node] + old(chain) && born == [node] + old(born) && dead == old(dead)
    {
      InLiving(born, dead, node);
      node.prev := current;
      node.val := 0;
      current := node;
      born := [node] + born;
      chain := [node] + chain;
      assert born[1..] == old(born);
    }

    /** wasm_runtime_pop_local_obj_ref(). */
    method PopTop()
      requires Valid() && chain != []
      modifies this
      ensures Valid()
      ensures chain == old(chain)[1..] && born == old(born) && dead == old(dead) + {old(chain)[0]}
    {
      OneDies(born, dead, 0);
      assert Without(chain, 0) == chain[1..];
      assert chain[0].prev == Behind(chain, 0);
      dead := dead + {chain[0]};
      current := current.prev;
      chain := chain[1..];
    }

    /** wasm_runtime_remove_local_obj_ref(): the walk ends at `me`, and only the
        node in front of it is relinked. */
    method Remove(me: LocalRef)
      requires Valid() && me in chain
      modifies this, chain
      ensures Valid()
      ensures exists k :: 0 <= k < |old(chain)| && old(chain)[k] == me && chain == Without(old(chain), k)
      ensures born == old(born) && dead == old(dead) + {me}
      ensures forall x :: x in old(chain) ==> x.val == old(x.val)
    {
      if current == me {
        PopTop();
        return;
      }
      var (at, next) := (current, current);
      ghost var k := 0;
      while at != me
        invariant 0 <= k < |chain| && at == chain[k]
        invariant me !in chain[..k]
        invariant k > 0 ==> next == chain[k - 1]
        invariant at == me ==> k > 0
        decreases |chain| - k
      {
        assert chain[k] != me;
        next := at;
        at := at.prev;
        k := k + 1;
        assert chain[..k] == chain[..k - 1] + [chain[k - 1]];
      }
      Unlink(next, me, k);
    }

    /** The node in front of `me` skips it. */
    method Unlink(next: LocalRef, me: LocalRef, ghost k: nat)
      requires Valid() && 0 < k < |chain| && chain[k] == me && chain[k - 1] == next
      modifies this`chain, this`dead, next`prev
      ensures Valid() && chain == Without(old(chain), k) && born == old(born) && dead == old(dead) + {me}
      ensures old(chain)[k] == me
    {
      OneDies(born, dead, k);
      assert chain[0] == current && chain[k].prev == Behind(chain, k);
      next.prev := me.prev;
      Relinked(chain, k);
      dead := dead + {me};
      chain := Without(chain, k);
    }
  }

  lemma WithoutAt(s: seq<LocalRef>, k: nat, i: nat)
    requires k < |s| && i < |Without(s, k)|
    ensures Without(s, k)[i] == s[if i < k then i else i + 1]
  {
  }

  lemma WithoutDistinct(s: seq<LocalRef>, k: nat)
    requires k < |s| && Distinct(s)
    ensures Distinct(Without(s, k))
  {
    forall i, j | 0 <= i < j < |Without(s, k)| ensures Without(s, k)[i] != Without(s, k)[j] {
      WithoutAt(s, k, i);
      WithoutAt(s, k, j);
    }
  }

  /** The nodes of `was` are linked in order, but node `k` is skipped. */
  lemma Relinked(was: seq<LocalRef>, k: nat)
    requires Distinct(was) && 0 < k < |was|
    requires forall i :: 0 <= i < |was| && i != k - 1 ==> was[i].prev == Behind(was, i)
    requires was[k - 1].prev == Behind(was, k)
    ensures Linked(was[0], Without(was, k))
  {
    var now := Without(was, k);
    WithoutDistinct(was, k);
    forall i | 0 <= i < |now| ensures now[i].prev == Behind(now, i) {
      WithoutAt(was, k, i);
      if i + 1 < |now| {
        WithoutAt(was, k, i + 1);
      }
    }
  }

  /** The part of `Obj` that matters here: the flag, and the node inside. */
  class Obj {
    const referencing: bool
    const ref: LocalRef

    constructor (referencing: bool, ref: LocalRef)
      ensures this.referencing == referencing && this.ref == ref
    {
      this.referencing, this.ref := referencing, ref;
    }
  }

  /** The nodes of the chain are those of the live referencing objects, each its own,
      and of a running converter; nothing else. */
  ghost predicate Owned(live: set<Obj>, chain: seq<LocalRef>, converting: LocalRef?) {
    && (forall o :: o in live && o.referencing ==> o.ref in chain && o.ref != converting)
    && (forall o, p :: o in live && p in live && o.referencing && p.referencing && o.ref == p.ref ==> o == p)
    && (forall x :: x in chain && x != converting ==> exists o :: o in live && o.referencing && o.ref == x)
    && (converting != null ==> converting in chain)
  }

  lemma OwnedAdd(live: set<Obj>, chain: seq<LocalRef>, converting: LocalRef?, o: Obj)
    requires Owned(live, chain, converting) && o.ref !in chain
    ensures Owned(live + {o}, if o.referencing then [o.ref] + chain else chain, converting)
  {
    var now := if o.referencing then [o.ref] + chain else chain;
    forall x | x in now && x != converting ensures exists p :: p in live + {o} && p.referencing && p.ref == x {
      if x in chain {
        var p :| p in live && p.referencing && p.ref == x;
        assert p in live + {o};
      } else {
        assert o in live + {o};
      }
    }
  }

  lemma OwnedRemove(live: set<Obj>, chain: seq<LocalRef>, converting: LocalRef?, o: Obj, now: seq<LocalRef>)
    requires Owned(live, chain, converting) && o in live
    requires forall y :: y in now <==> y in chain && !(o.referencing && y == o.ref)
    ensures Owned(live - {o}, now, converting)
  {
    forall x | x in now && x != converting ensures exists p :: p in live - {o} && p.referencing && p.ref == x {
      var p :| p in live && p.referencing && p.ref == x;
      assert p in live - {o};
    }
  }

  lemma OneOfMany(dying: seq<Obj>)
    requires Distinct(dying) && dying != []
    ensures Distinct(dying[1..]) && dying[0] !in dying[1..]
    ensures forall o :: o in dying <==> o == dying[0] || o in dying[1..]
    ensures (set o | o in dying) == {dying[0]} + (set o | o in dying[1..])
  {
    assert forall o :: o in dying <==> o == dying[0] || o in dying[1..];
  }

  /** An environment with the objects allocated in it. */
  class Heap {
    const env: ExecEnv
    /** The objects whose memory has not been freed. */
    ghost var live: set<Obj>
    /** The node of the array converter that is running. */
    var converting: LocalRef?

    /** The chain holds the nodes of the live referencing objects, each its own, and
        the node of a running converter; nothing else. */
    ghost predicate Valid()
      reads this, env, env.chain
    {
      env.Valid() && Owned(live, env.chain, converting)
    }

    /** The running converter's node is on top: no object was created since. */
    ghost predicate OnTop()
      reads this, env
    {
      converting != null && env.chain != [] && env.chain[0] == converting
    }

    constructor ()
      ensures Valid() && live == {} && converting == null && fresh(env)
    {
      env := new ExecEnv();
      live, converting := {}, null;
    }

    /** rst_obj_new() for an object that refers to another, or to none. */
    method ObjNew(ref: Option<int>) returns (o: Obj)
      requires Valid()
      modifies this`live, env
      ensures Valid() && fresh(o) && fresh(o.ref)
      ensures live == old(live) + {o} && o.referencing == ref.Some?
      ensures env.chain == if ref.Some? then [o.ref] + old(env.chain) else old(env.chain)
      ensures ref.Some? ==> o.ref.val == ref.value
    {
      var node := new LocalRef();
      o := new Obj(ref.Some?, node);
      OwnedAdd(live, env.chain, converting, o);
      if ref.Some? {
        env.Push(node);
        node.val := ref.value;
      }
      live := live + {o};
    }

    /** obj_finalizer(), whenever the collector calls it. */
    method Finalize(o: Obj)
      requires Valid() && o in live
      modifies this`live, env, env.chain
      ensures Valid() && live == old(live) - {o}
      ensures o.ref !in env.chain || !o.referencing
      ensures !o.referencing ==> env.chain == old(env.chain)
      ensures old(OnTop()) ==> OnTop()
      ensures forall x :: x in env.chain ==> x in old(env.chain) && x.val == old(x.val)
      ensures o.referencing ==> exists k :: 0 <= k < |old(env.chain)| && old(env.chain)[k] == o.ref && env.chain == Without(old(env.chain), k)
    {
      if o.referencing {
        env.Remove(o.ref);
        WithoutOnly(old(env.chain), env.chain, o.ref);
      }
      OwnedRemove(live, old(env.chain), converting, o, env.chain);
      live := live - {o};
    }

    /** An array converter protects the struct it is filling. */
    method BeginConvert(val: int)
      requires Valid() && converting == null
      modifies this`converting, env
      ensures Valid() && OnTop() && fresh(converting) && converting.val == val
      ensures env.chain == [converting] + old(env.chain)
    {
      var node := new LocalRef();
      env.Push(node);
      node.val := val;
      converting := node;
    }

    /** ... and pops the top of the chain when it is done, which must be its own. */
    method EndConvert()
      requires Valid() && OnTop()
      modifies this`converting, env
      ensures Valid() && converting == null
      ensures env.chain == old(env.chain)[1..] && old(env.chain)[0] == old(converting)
      ensures forall x :: x in env.chain ==> x in old(env.chain) && x != old(converting)
    {
      ghost var (was, top) := (env.chain, converting);
      env.PopTop();
      converting := null;
      forall x | x in env.chain ensures x in was && x != top {
        var j :| 0 <= j < |env.chain| && env.chain[j] == x;
        assert was[j + 1] == x;
      }
    }

    /** A run of the collector: it finalizes some objects in the order it likes. */
    method Collect(dying: seq<Obj>)
      requires Valid() && Distinct(dying) && forall o :: o in dying ==> o in live
      modifies this`live, env, env.chain
      ensures Valid() && live == old(live) - (set o | o in dying)
      ensures forall x :: x in env.chain ==> x in old(env.chain) && x.val == old(x.val)
      ensures old(OnTop()) ==> OnTop()
      decreases |dying|
    {
      if dying != [] {
        OneOfMany(dying);
        Finalize(dying[0]);
        Collect(dying[1..]);
      }
    }

    /** The bracket that pg_int2_array_to_wasm_i32_array() and its int4 twin put
        around their allocations, each of which may run the collector. */
    method Protect(val: int, dying: seq<Obj>)
      requires Valid() && converting == null
      requires Distinct(dying) && forall o :: o in dying ==> o in live
      modifies this, env, env.chain
      ensures Valid() && converting == null
      ensures live == old(live) - (set o | o in dying)
      ensures forall x :: x in env.chain ==> x in old(env.chain) && x.val == old(x.val)
    {
      BeginConvert(val);
      ghost var (top, was) := (converting, env.chain);
      Collect(dying);
      assert OnTop() && converting.val == val;
      ghost var now := env.chain;
      EndConvert();
      forall x | x in env.chain ensures x in old(env.chain) {
        assert x in now && x != top;
      }
    }
  }

  /** Taking out one element of a list without repeats takes out just that value. */
  lemma WithoutOnly(was: seq<LocalRef>, now: seq<LocalRef>, x: LocalRef)
    requires Distinct(was)
    requires exists k :: 0 <= k < |was| && was[k] == x && now == Without(was, k)
    ensures forall y :: y in now <==> y in was && y != x
    ensures was[0] != x ==> now != [] && now[0] == was[0]
  {
    var k :| 0 <= k < |was| && was[k] == x && now == Without(was, k);
    forall y | y in was && y != x ensures y in now {
      var j :| 0 <= j < |was| && was[j] == y;
      assert now[if j < k then j else j - 1] == y;
    }
  }
}
