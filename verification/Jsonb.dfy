/**
 adt/jsonb.c: rst_jsonb_iterate() turns PostgreSQL's iteration over a jsonb value
 into calls of the functions that a WASM module exports.
 */
module Jsonb {
  datatype Value =
    | VNull
    | VBool(b: bool)
    | VNumeric(n: real)
    | VString(s: string)
    | VArray(elems: seq<Value>)
    | VObject(pairs: seq<Pair>)
  {
    predicate IsScalar() { !VArray? && !VObject? }
  }

  datatype Pair = Pair(key: string, value: Value)

  /** What JsonbIteratorNext() reports; a scalar document is stored as an array of
      one element marked raw, and nested containers come as their own tokens. */
  datatype Token =
    | BeginArray(raw: bool)
    | EndArray
    | BeginObject
    | EndObject
    | Key(key: string)
    | Item(scalar: Value)

  function Tokens(v: Value): seq<Token>
    decreases v, 1
  {
    match v
    case VArray(elems) => [BeginArray(false)] + ElemTokens(elems) + [EndArray]
    case VObject(pairs) => [BeginObject] + PairTokens(pairs) + [EndObject]
    case _ => [Item(v)]
  }

  function ElemTokens(elems: seq<Value>): seq<Token>
    decreases elems, 0
  {
    if elems == [] then [] else Tokens(elems[0]) + ElemTokens(elems[1..])
  }

  function PairTokens(pairs: seq<Pair>): seq<Token>
    decreases pairs, 0
  {
    if pairs == [] then [] else [Key(pairs[0].key)] + Tokens(pairs[0].value) + PairTokens(pairs[1..])
  }

  /** The token stream of a whole document. */
  function DocumentTokens(v: Value): seq<Token> {
    if v.IsScalar() then [BeginArray(true)] + Tokens(v) + [EndArray] else Tokens(v)
  }

  /** The exported callbacks, with their arguments. */
  datatype Event =
    | ArrayStart
    | ArrayEnd
    | ObjectStart
    | ObjectEnd
    | FieldStart(name: string)
    | PushString(s: string)
    | PushNumber(n: real)
    | PushBool(b: bool)
    | PushNull

  function PushOf(v: Value): Event
    requires v.IsScalar()
  {
    match v
    case VNull => PushNull
    case VBool(b) => PushBool(b)
    case VNumeric(n) => PushNumber(n)
    case VString(s) => PushString(s)
  }

  /** The document in pre-order. */
  function PreOrder(v: Value): seq<Event>
    decreases v, 1
  {
    match v
    case VArray(elems) => [ArrayStart] + ElemsPreOrder(elems) + [ArrayEnd]
    case VObject(pairs) => [ObjectStart] + PairsPreOrder(pairs) + [ObjectEnd]
    case _ => [PushOf(v)]
  }

  function ElemsPreOrder(elems: seq<Value>): seq<Event>
    decreases elems, 0
  {
    if elems == [] then [] else PreOrder(elems[0]) + ElemsPreOrder(elems[1..])
  }

  function PairsPreOrder(pairs: seq<Pair>): seq<Event>
    decreases pairs, 0
  {
    if pairs == [] then [] else [FieldStart(pairs[0].key)] + PreOrder(pairs[0].value) + PairsPreOrder(pairs[1..])
  }

  /** The calls made for `events`: functions that are not exported are skipped, and
      nothing is called after a failure.  The `n`-th call of all succeeds if
      `pass(n)`. */
  function Calls(events: seq<Event>, exported: Event -> bool, n: nat, pass: nat -> bool): (seq<Event>, bool) {
    if events == [] then ([], true)
    else if !exported(events[0]) then Calls(events[1..], exported, n, pass)
    else if !pass(n) then ([events[0]], false)
    else
      var (rest, ok) := Calls(events[1..], exported, n + 1, pass);
      ([events[0]] + rest, ok)
  }

  // ---------------------------------------------------------------- tokens mean events

  /** What one token calls for, given whether the document is a raw scalar. */
  function EventOf(t: Token, raw: bool): seq<Event>
    requires t.Item? ==> t.scalar.IsScalar()
  {
    match t
    case BeginArray(r) => if r then [] else [ArrayStart]
    case EndArray => if raw then [] else [ArrayEnd]
    case BeginObject => [ObjectStart]
    case EndObject => [ObjectEnd]
    case Key(k) => [FieldStart(k)]
    case Item(v) => [PushOf(v)]
  }

  predicate Proper(ts: seq<Token>) {
    forall i :: 0 <= i < |ts| && ts[i].Item? ==> ts[i].scalar.IsScalar()
  }

  function EventsOf(ts: seq<Token>, raw: bool): seq<Event>
    requires Proper(ts)
    decreases |ts|
  {
    if ts == [] then []
    else EventOf(ts[0], raw) + EventsOf(ts[1..], raw || (ts[0].BeginArray? && ts[0].raw))
  }

  /** No raw array begins here. */
  predicate Plain(ts: seq<Token>) {
    forall i :: 0 <= i < |ts| && ts[i].BeginArray? ==> !ts[i].raw
  }

  lemma {:induction false} EventsInTwo(a: seq<Token>, b: seq<Token>)
    requires Proper(a) && Proper(b) && Plain(a)
    ensures Proper(a + b)
    ensures EventsOf(a + b, false) == EventsOf(a, false) + EventsOf(b, false)
    decreases |a|
  {
    if a == [] {
      assert a + b == b;
    } else {
      EventsInTwo(a[1..], b);
      assert (a + b)[1..] == a[1..] + b;
    }
  }

  lemma EventsOne(t: Token)
    requires t.Item? ==> t.scalar.IsScalar()
    requires t.BeginArray? ==> !t.raw
    ensures Proper([t]) && Plain([t]) && EventsOf([t], false) == EventOf(t, false)
  {
    assert [t][1..] == [];
    assert EventsOf([], false) == [];
    assert EventsOf([t], false) == EventOf(t, false) + [];
  }

  lemma {:induction false} TokensMeanPreOrder(v: Value)
    ensures Proper(Tokens(v)) && Plain(Tokens(v))
    ensures EventsOf(Tokens(v), false) == PreOrder(v)
    decreases v, 1
  {
    match v
    case VArray(elems) =>
      ElemsMeanPreOrder(elems);
      Bracketed(BeginArray(false), ElemTokens(elems), EndArray);
    case VObject(pairs) =>
      PairsMeanPreOrder(pairs);
      Bracketed(BeginObject, PairTokens(pairs), EndObject);
    case _ =>
      EventsOne(Item(v));
  }

  lemma Bracketed(open: Token, inner: seq<Token>, close: Token)
    requires !open.Item? && !close.Item? && (open.BeginArray? ==> !open.raw) && (close.BeginArray? ==> !close.raw)
    requires Proper(inner) && Plain(inner)
    ensures Proper([open] + inner + [close]) && Plain([open] + inner + [close])
    ensures EventsOf([open] + inner + [close], false) == EventOf(open, false) + EventsOf(inner, false) + EventOf(close, false)
  {
    EventsOne(open);
    EventsOne(close);
    EventsInTwo([open], inner);
    EventsInTwo([open] + inner, [close]);
  }

  lemma {:induction false} ElemsMeanPreOrder(elems: seq<Value>)
    ensures Proper(ElemTokens(elems)) && Plain(ElemTokens(elems))
    ensures EventsOf(ElemTokens(elems), false) == ElemsPreOrder(elems)
    decreases elems, 0
  {
    if elems != [] {
      TokensMeanPreOrder(elems[0]);
      ElemsMeanPreOrder(elems[1..]);
      EventsInTwo(Tokens(elems[0]), ElemTokens(elems[1..]));
    }
  }

  lemma {:induction false} PairsMeanPreOrder(pairs: seq<Pair>)
    ensures Proper(PairTokens(pairs)) && Plain(PairTokens(pairs))
    ensures EventsOf(PairTokens(pairs), false) == PairsPreOrder(pairs)
    decreases pairs, 0
  {
    if pairs != [] {
      var (key, value, rest) := (Key(pairs[0].key), Tokens(pairs[0].value), PairTokens(pairs[1..]));
      TokensMeanPreOrder(pairs[0].value);
      PairsMeanPreOrder(pairs[1..]);
      EventsOne(key);
      EventsInTwo([key], value);
      EventsInTwo([key] + value, rest);
    }
  }

  /** A raw array can only begin the stream, and then no other array follows. */
  predicate RawAlone(ts: seq<Token>) {
    forall i, j :: 0 <= i < j < |ts| && ts[i].BeginArray? && ts[j].BeginArray? ==> !ts[i].raw && !ts[j].raw
  }

  lemma DocumentMeansPreOrder(v: Value)
    ensures Proper(DocumentTokens(v)) && RawAlone(DocumentTokens(v))
    ensures EventsOf(DocumentTokens(v), false) == PreOrder(v)
  {
    TokensMeanPreOrder(v);
    if v.IsScalar() {
      var ts := DocumentTokens(v);
      assert ts == [BeginArray(true), Item(v), EndArray];
      assert ts[1..] == [Item(v), EndArray];
      assert ts[1..][1..] == [EndArray];
      assert EventsOf([EndArray], true) == [];
      assert EventsOf(ts[1..], true) == [PushOf(v)] + [];
      assert EventsOf(ts, false) == [] + [PushOf(v)];
    }
  }

  // ---------------------------------------------------------------- the events determine the value

  datatype Parsed<T> = Parsed(it: T, rest: seq<Event>) | NotParsed

  /** The value that the events at the front describe, and the events behind it. */
  function ParseValue(es: seq<Event>): (r: Parsed<Value>)
    ensures r.Parsed? ==> |r.rest| < |es|
    decreases |es|, 0
  {
    if es == [] then NotParsed
    else
      match es[0]
      case PushNull => Parsed(VNull, es[1..])
      case PushBool(b) => Parsed(VBool(b), es[1..])
      case PushNumber(n) => Parsed(VNumeric(n), es[1..])
      case PushString(s) => Parsed(VString(s), es[1..])
      case ArrayStart =>
        var r := ParseElems(es[1..]);
        if r.Parsed? then Parsed(VArray(r.it), r.rest) else NotParsed
      case ObjectStart =>
        var r := ParsePairs(es[1..]);
        if r.Parsed? then Parsed(VObject(r.it), r.rest) else NotParsed
      case _ => NotParsed
  }

  /** Values up to the end of an array. */
  function ParseElems(es: seq<Event>): (r: Parsed<seq<Value>>)
    ensures r.Parsed? ==> |r.rest| < |es|
    decreases |es|, 1
  {
    if es == [] then NotParsed
    else if es[0] == ArrayEnd then Parsed([], es[1..])
    else
      var v := ParseValue(es);
      if v.NotParsed? then NotParsed
      else
        var vs := ParseElems(v.rest);
        if vs.NotParsed? then NotParsed else Parsed([v.it] + vs.it, vs.rest)
  }

  /** Fields up to the end of an object. */
  function ParsePairs(es: seq<Event>): (r: Parsed<seq<Pair>>)
    ensures r.Parsed? ==> |r.rest| < |es|
    decreases |es|, 1
  {
    if es == [] then NotParsed
    else if es[0] == ObjectEnd then Parsed([], es[1..])
    else if !es[0].FieldStart? then NotParsed
    else
      var v := ParseValue(es[1..]);
      if v.NotParsed? then NotParsed
      else
        var ps := ParsePairs(v.rest);
        if ps.NotParsed? then NotParsed else Parsed([Pair(es[0].name, v.it)] + ps.it, ps.rest)
  }

  /** The value that a module builds from the calls it gets, if they describe one. */
  function Rebuild(es: seq<Event>): Parsed<Value> {
    var r := ParseValue(es);
    if r.Parsed? && r.rest == [] then r else NotParsed
  }

  /** One scalar, one container, one element and one field, each put together. */
  lemma ScalarParses(v: Value, rest: seq<Event>)
    requires v.IsScalar()
    ensures ParseValue([PushOf(v)] + rest) == Parsed(v, rest)
  {
    assert ([PushOf(v)] + rest)[1..] == rest;
  }

  lemma ArrayParses(inner: seq<Event>, elems: seq<Value>, rest: seq<Event>)
    requires ParseElems(inner) == Parsed(elems, rest)
    ensures ParseValue([ArrayStart] + inner) == Parsed(VArray(elems), rest)
  {
    assert ([ArrayStart] + inner)[1..] == inner;
  }

  lemma ObjectParses(inner: seq<Event>, pairs: seq<Pair>, rest: seq<Event>)
    requires ParsePairs(inner) == Parsed(pairs, rest)
    ensures ParseValue([ObjectStart] + inner) == Parsed(VObject(pairs), rest)
  {
    assert ([ObjectStart] + inner)[1..] == inner;
  }

  lemma ElemParses(es: seq<Event>, v: Value, more: seq<Event>, vs: seq<Value>, rest: seq<Event>)
    requires es != [] && es[0] != ArrayEnd
    requires ParseValue(es) == Parsed(v, more) && ParseElems(more) == Parsed(vs, rest)
    ensures ParseElems(es) == Parsed([v] + vs, rest)
  {
  }

  lemma PairParses(key: string, es: seq<Event>, v: Value, more: seq<Event>, ps: seq<Pair>, rest: seq<Event>)
    requires ParseValue(es) == Parsed(v, more) && ParsePairs(more) == Parsed(ps, rest)
    ensures ParsePairs([FieldStart(key)] + es) == Parsed([Pair(key, v)] + ps, rest)
  {
    assert ([FieldStart(key)] + es)[1..] == es;
  }

  lemma ContainersInFront(elems: seq<Value>, pairs: seq<Pair>, rest: seq<Event>)
    ensures PreOrder(VArray(elems)) + rest == [ArrayStart] + (ElemsPreOrder(elems) + ([ArrayEnd] + rest))
    ensures PreOrder(VObject(pairs)) + rest == [ObjectStart] + (PairsPreOrder(pairs) + ([ObjectEnd] + rest))
  {
  }

  lemma {:induction false} ParsesBack(v: Value, rest: seq<Event>)
    ensures ParseValue(PreOrder(v) + rest) == Parsed(v, rest)
    decreases v, 1
  {
    match v
    case VArray(elems) =>
      ElemsParseBack(elems, rest);
      ContainersInFront(elems, [], rest);
      ArrayParses(ElemsPreOrder(elems) + ([ArrayEnd] + rest), elems, rest);
    case VObject(pairs) =>
      PairsParseBack(pairs, rest);
      ContainersInFront([], pairs, rest);
      ObjectParses(PairsPreOrder(pairs) + ([ObjectEnd] + rest), pairs, rest);
    case _ =>
      ScalarParses(v, rest);
  }

  /** A value does not begin where a container ends. */
  lemma BeginsNoEnd(v: Value)
    ensures PreOrder(v) != [] && PreOrder(v)[0] != ArrayEnd
  {
  }

  /** The first element of an array and the rest of it. */
  lemma ElemsInFront(elems: seq<Value>, rest: seq<Event>)
    requires elems != []
    ensures ElemsPreOrder(elems) + ([ArrayEnd] + rest) == PreOrder(elems[0]) + (ElemsPreOrder(elems[1..]) + ([ArrayEnd] + rest))
  {
  }

  lemma {:induction false} ElemsParseBack(elems: seq<Value>, rest: seq<Event>)
    ensures ParseElems(ElemsPreOrder(elems) + ([ArrayEnd] + rest)) == Parsed(elems, rest)
    decreases elems, 0
  {
    if elems == [] {
      assert ElemsPreOrder(elems) + ([ArrayEnd] + rest) == [ArrayEnd] + rest;
      assert ([ArrayEnd] + rest)[1..] == rest;
    } else {
      var (v, vs) := (elems[0], elems[1..]);
      var more := ElemsPreOrder(vs) + ([ArrayEnd] + rest);
      ParsesBack(v, more);
      ElemsParseBack(vs, rest);
      BeginsNoEnd(v);
      ElemParses(PreOrder(v) + more, v, more, vs, rest);
      ElemsInFront(elems, rest);
      assert elems == [v] + vs;
    }
  }

  /** The first field of an object and the rest of it. */
  lemma PairsInFront(pairs: seq<Pair>, rest: seq<Event>)
    requires pairs != []
    ensures var (p, more) := (pairs[0], PairsPreOrder(pairs[1..]) + ([ObjectEnd] + rest));
      PairsPreOrder(pairs) + ([ObjectEnd] + rest) == [FieldStart(p.key)] + (PreOrder(p.value) + more)
  {
  }

  lemma {:induction false} PairsParseBack(pairs: seq<Pair>, rest: seq<Event>)
    ensures ParsePairs(PairsPreOrder(pairs) + ([ObjectEnd] + rest)) == Parsed(pairs, rest)
    decreases pairs, 0
  {
    if pairs == [] {
      assert PairsPreOrder(pairs) + ([ObjectEnd] + rest) == [ObjectEnd] + rest;
      assert ([ObjectEnd] + rest)[1..] == rest;
    } else {
      var (p, ps) := (pairs[0], pairs[1..]);
      var more := PairsPreOrder(ps) + ([ObjectEnd] + rest);
      ParsesBack(p.value, more);
      PairsParseBack(ps, rest);
      PairParses(p.key, PreOrder(p.value) + more, p.value, more, ps, rest);
      PairsInFront(pairs, rest);
      assert pairs == [p] + ps && p == Pair(p.key, p.value);
    }
  }

  /** The pre-order of any value, nested as it may be, says what the value is. */
  lemma RebuildsEveryValue(v: Value)
    ensures Rebuild(PreOrder(v)) == Parsed(v, [])
  {
    ParsesBack(v, []);
    assert PreOrder(v) + [] == PreOrder(v);
  }

  /** So do the tokens of a document, the raw-scalar wrapper aside. */
  lemma TokensRebuildTheDocument(v: Value)
    ensures Proper(DocumentTokens(v))
    ensures Rebuild(EventsOf(DocumentTokens(v), false)) == Parsed(v, [])
  {
    DocumentMeansPreOrder(v);
    RebuildsEveryValue(v);
  }

  // ---------------------------------------------------------------- the loop

  class Iteration {
    const exported: Event -> bool
    const pass: nat -> bool
    var success: bool
    /** The calls made. */
    var made: seq<Event>

    constructor (exported: Event -> bool, pass: nat -> bool)
      ensures this.exported == exported && this.pass == pass && success && made == []
    {
      this.exported, this.pass, success, made := exported, pass, true, [];
    }

    /** Calls the function exported for the event, unless a call has failed before; a
        call that fails is remembered. */
    method Call(e: Event)
      modifies this
      ensures var (more, ok) := if old(success) then Calls([e], exported, |old(made)|, pass) else ([], false);
        made == old(made) + more && success == ok
    {
      assert [e][1..] == [];
      if success {
        if exported(e) {
          success := pass(|made|);
          made := made + [e];
        }
      }
    }

    /** One token. */
    method Handle(t: Token, raw: bool)
      requires t.Item? ==> t.scalar.IsScalar()
      modifies this
      ensures var (more, ok) := if old(success) then Calls(EventOf(t, raw), exported, |old(made)|, pass) else ([], false);
        made == old(made) + more && success == ok
    {
      match t {
        case BeginArray(r) =>
          if !r {
            Call(ArrayStart);
          }
        case EndArray =>
          if !raw {
            Call(ArrayEnd);
          }
        case BeginObject =>
          Call(ObjectStart);
        case EndObject =>
          Call(ObjectEnd);
        case Key(k) =>
          Call(FieldStart(k));
        case Item(v) =>
          Call(PushOf(v));
      }
    }
  }

  lemma {:induction false} CallsInTwo(a: seq<Event>, b: seq<Event>, exported: Event -> bool, n: nat, pass: nat -> bool)
    ensures var (x, ok) := Calls(a, exported, n, pass);
      Calls(a + b, exported, n, pass) == Resume(x, ok, b, exported, n, pass)
    decreases |a|
  {
    if a == [] {
      assert a + b == b;
      assert [] + Calls(b, exported, n, pass).0 == Calls(b, exported, n, pass).0;
    } else {
      assert (a + b)[1..] == a[1..] + b;
      if !exported(a[0]) {
        CallsInTwo(a[1..], b, exported, n, pass);
      } else if pass(n) {
        CallsInTwo(a[1..], b, exported, n + 1, pass);
        var (x, ok) := Calls(a[1..], exported, n + 1, pass);
        if ok {
          var y := Calls(b, exported, n + 1 + |x|, pass).0;
          assert [a[0]] + (x + y) == [a[0]] + x + y;
        }
      }
    }
  }

  /** Going on with `rest` after the calls `made`, the first of them being call `n`. */
  function Resume(made: seq<Event>, ok: bool, rest: seq<Event>, exported: Event -> bool, n: nat, pass: nat -> bool): (seq<Event>, bool) {
    if ok then
      var (more, ok2) := Calls(rest, exported, n + |made|, pass);
      (made + more, ok2)
    else (made, false)
  }

  /** Handling the events `e` now and the others later is handling all of them. */
  lemma ResumeStep(made: seq<Event>, ok: bool, e: seq<Event>, later: seq<Event>, exported: Event -> bool, pass: nat -> bool)
    ensures var (more, ok2) := if ok then Calls(e, exported, |made|, pass) else ([], false);
      Resume(made, ok, e + later, exported, 0, pass) == Resume(made + more, ok2, later, exported, 0, pass)
  {
    CallsInTwo(e, later, exported, |made|, pass);
    if ok {
      var (more, ok2) := Calls(e, exported, |made|, pass);
      if ok2 {
        var rest := Calls(later, exported, |made| + |more|, pass).0;
        assert made + (more + rest) == made + more + rest;
      }
    } else {
      assert made + [] == made;
    }
  }

  /** The loop over the iterator. */
  method Iterate(v: Value, exported: Event -> bool, pass: nat -> bool) returns (made: seq<Event>, success: bool)
    ensures (made, success) == Calls(PreOrder(v), exported, 0, pass)
    ensures success && (forall e :: e in PreOrder(v) ==> exported(e)) ==> Rebuild(made) == Parsed(v, [])
  {
    var ts := DocumentTokens(v);
    DocumentMeansPreOrder(v);
    var it := new Iteration(exported, pass);
    var raw := false;
    assert ts[0..] == ts;
    assert [] + Calls(PreOrder(v), exported, 0, pass).0 == Calls(PreOrder(v), exported, 0, pass).0;
    for i := 0 to |ts|
      invariant Proper(ts[i..])
      invariant raw ==> exists j :: 0 <= j < i && ts[j].BeginArray? && ts[j].raw
      invariant it.exported == exported && it.pass == pass
      invariant Resume(it.made, it.success, EventsOf(ts[i..], raw), exported, 0, pass) == Calls(PreOrder(v), exported, 0, pass)
    {
      raw := Advance(it, ts, i, raw);
    }
    assert EventsOf(ts[|ts|..], raw) == [];
    assert it.made + [] == it.made;
    made, success := it.made, it.success;
    if forall e :: e in PreOrder(v) ==> exported(e) {
      AllExported(v, exported, pass);
    }
  }

  /** One turn of the loop: token `i`. */
  method Advance(it: Iteration, ts: seq<Token>, i: nat, raw: bool) returns (now: bool)
    requires i < |ts| && Proper(ts[i..]) && RawAlone(ts)
    requires raw ==> exists j :: 0 <= j < i && ts[j].BeginArray? && ts[j].raw
    modifies it
    ensures Proper(ts[i + 1..])
    ensures now <==> raw || (ts[i].BeginArray? && ts[i].raw)
    ensures Resume(it.made, it.success, EventsOf(ts[i + 1..], now), it.exported, 0, it.pass)
         == Resume(old(it.made), old(it.success), EventsOf(ts[i..], raw), it.exported, 0, it.pass)
  {
    var t := ts[i];
    // Assert(!raw_scalar)
    assert t.BeginArray? ==> !raw;
    assert ts[i..][0] == t && ts[i..][1..] == ts[i + 1..];
    now := raw || (t.BeginArray? && t.raw);
    ResumeStep(it.made, it.success, EventOf(t, raw), EventsOf(ts[i + 1..], now), it.exported, it.pass);
    it.Handle(t, raw);
  }

  /** The events whose function the module exports, in order. */
  function Exported(events: seq<Event>, exported: Event -> bool): seq<Event> {
    if events == [] then []
    else (if exported(events[0]) then [events[0]] else []) + Exported(events[1..], exported)
  }

  lemma {:induction false} ExportedIsAll(events: seq<Event>, exported: Event -> bool)
    requires forall e :: e in events ==> exported(e)
    ensures Exported(events, exported) == events
  {
    if events != [] {
      ExportedIsAll(events[1..], exported);
      assert events == [events[0]] + events[1..];
    }
  }

  /** Whatever is exported: the calls are the exported events up to and including the
      first failure, and success means all of them. */
  lemma {:induction false} CallsUpToFailure(events: seq<Event>, exported: Event -> bool, n: nat, pass: nat -> bool)
    ensures var ((made, ok), all) := (Calls(events, exported, n, pass), Exported(events, exported));
      && made <= all
      && (ok <==> forall k :: n <= k < n + |all| ==> pass(k))
      && (ok ==> made == all)
      && (!ok ==> made != [] && !pass(n + |made| - 1) && forall k :: n <= k < n + |made| - 1 ==> pass(k))
    decreases |events|
  {
    if events != [] {
      if !exported(events[0]) {
        CallsUpToFailure(events[1..], exported, n, pass);
        assert [] + Exported(events[1..], exported) == Exported(events[1..], exported);
      } else if pass(n) {
        CallsUpToFailure(events[1..], exported, n + 1, pass);
      }
    }
  }

  /** With every function exported, the calls are a prefix of the pre-order, and if
      none fails, the module can rebuild the document from them. */
  lemma AllExported(v: Value, exported: Event -> bool, pass: nat -> bool)
    requires forall e :: e in PreOrder(v) ==> exported(e)
    ensures var (made, ok) := Calls(PreOrder(v), exported, 0, pass);
      && made <= PreOrder(v)
      && (ok <==> forall k :: 0 <= k < |PreOrder(v)| ==> pass(k))
      && (ok ==> Rebuild(made) == Parsed(v, []))
  {
    ExportedIsAll(PreOrder(v), exported);
    CallsUpToFailure(PreOrder(v), exported, 0, pass);
    RebuildsEveryValue(v);
  }
}
