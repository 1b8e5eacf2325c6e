/** The callbacks as they update their state in place, and what they amount to. */
module Moontest {
  import opened Base
  import opened MoontestModel

  lemma {:induction false} RunInTwo(st: State, a: seq<Callback>, b: seq<Callback>, pass: nat -> bool)
    requires st.Ok()
    ensures var r := Run(st, a, pass); Run(st, a + b, pass) == if r.1.Success? then Run(r.0, b, pass) else r
    decreases |a|
  {
    if a == [] {
      assert a + b == b;
    } else {
      assert (a + b)[1..] == a[1..] + b;
      RunInTwo(Step(st, a[0], pass).0, a[1..], b, pass);
    }
  }

  /** One more callback. */
  lemma RunOne(st: State, c: Callback, rest: seq<Callback>, pass: nat -> bool)
    requires st.Ok()
    ensures var (next, v) := Step(st, c, pass);
      Run(st, [c] + rest, pass) == if v.Success? then Run(next, rest, pass) else (next, v)
  {
    assert ([c] + rest)[1..] == rest;
  }

  lemma PerformCons(x: (string, int), rest: seq<(string, int)>, n: nat, pass: nat -> bool, package: Option<string>)
    ensures Perform([x] + rest, n, pass, package) == PerformOne(x, pass(n), package) + Perform(rest, n + 1, pass, package)
  {
    assert ([x] + rest)[1..] == rest;
  }

  /** The first call of a range and the rest of it, after what was done before. */
  lemma OneCall(before: seq<Action>, file: string, lo: int, hi: int, n: nat, pass: nat -> bool, package: Option<string>)
    requires lo < hi
    ensures before + Perform(Indices(file, lo, hi), n, pass, package) ==
      before + PerformOne((file, lo), pass(n), package) + Perform(Indices(file, lo + 1, hi), n + 1, pass, package)
  {
    PerformCons((file, lo), Indices(file, lo + 1, hi), n, pass, package);
    var (x, y) := (PerformOne((file, lo), pass(n), package), Perform(Indices(file, lo + 1, hi), n + 1, pass, package));
    assert before + (x + y) == before + x + y;
  }

  lemma Associative<T>(a: seq<T>, b: seq<T>, c: seq<T>)
    ensures a + (b + c) == a + b + c
  {
  }

  lemma {:induction false} PerformInTwo(a: seq<(string, int)>, b: seq<(string, int)>, n: nat, pass: nat -> bool, package: Option<string>)
    ensures Perform(a + b, n, pass, package) == Perform(a, n, pass, package) + Perform(b, n + |a|, pass, package)
    decreases |a|
  {
    if a == [] {
      assert a + b == b;
    } else {
      var (x, later) := (a[0], a[1..]);
      PerformInTwo(later, b, n + 1, pass, package);
      assert a == [x] + later;
      Associative([x], later, b);
      PerformCons(x, later + b, n, pass, package);
      PerformCons(x, later, n, pass, package);
      Associative(PerformOne(x, pass(n), package), Perform(later, n + 1, pass, package), Perform(b, n + |a|, pass, package));
    }
  }

  /** The stream got from `st` to `r.0` with the verdict and the calls of `w`, and if
      it got through, it stands at `awaits` with the file `filename`. */
  predicate Follows(st: State, r: (State, Verdict), w: Walk, awaits: Expect, filename: Option<string>, pass: nat -> bool) {
    && r.1 == w.end
    && r.0.actions == st.actions + Perform(w.calls, st.calls, pass, st.package)
    && r.0.calls == st.calls + |w.calls|
    && (r.1.Success? ==> r.0.awaits == awaits && r.0.filename == filename && r.0.package == st.package)
  }

  /** Two parts one after the other. */
  lemma FollowsThen(st: State, r: (State, Verdict), w: Walk, x: Expect, f: Option<string>,
                    s: (State, Verdict), w2: Walk, y: Expect, g: Option<string>, pass: nat -> bool)
    requires Follows(st, r, w, x, f, pass)
    requires if r.1.Success? then Follows(r.0, s, w2, y, g, pass) else s == r
    ensures Follows(st, s, Then(w, w2), y, g, pass)
  {
    if r.1.Success? {
      PerformInTwo(w.calls, w2.calls, st.calls, pass, st.package);
    }
  }

  // ---------------------------------------------------------------- a range

  function BoundsOf(st: State): Bounds {
    Bounds(st.start, st.end, st.startSet, st.endSet)
  }

  /** The first callback for a value. */
  function Head(v: Json): Callback {
    if v.JArray? then ArrayStart else if v.JObject? then ObjectStart else Scalar(v)
  }

  /** The callbacks for a value after the first. */
  function Tail(v: Json): seq<Callback> {
    match v
    case JArray(elems) => StreamElems(elems) + [ArrayEnd]
    case JObject(fields) => StreamFields(fields) + [ObjectEnd]
    case _ => []
  }

  lemma HeadAndTail(v: Json)
    ensures Stream(v) == [Head(v)] + Tail(v)
  {
  }

  /** Running a value and more begins with its first callback. */
  lemma RunValue(st: State, v: Json, rest: seq<Callback>, pass: nat -> bool)
    requires st.Ok()
    ensures var (next, verdict) := Step(st, Head(v), pass);
      Run(st, Stream(v) + rest, pass) == if verdict.Success? then Run(next, Tail(v) + rest, pass) else (next, verdict)
  {
    HeadAndTail(v);
    assert Stream(v) + rest == [Head(v)] + (Tail(v) + rest);
    RunOne(st, Head(v), Tail(v) + rest, pass);
  }

  lemma RunAlone(st: State, v: Json, pass: nat -> bool)
    requires st.Ok()
    ensures var (next, verdict) := Step(st, Head(v), pass);
      Run(st, Stream(v), pass) == if verdict.Success? then Run(next, Tail(v), pass) else (next, verdict)
  {
    RunValue(st, v, [], pass);
    assert Stream(v) + [] == Stream(v) && Tail(v) + [] == Tail(v);
  }

  /** A single callback. */
  lemma RunLast(st: State, c: Callback, pass: nat -> bool)
    requires st.Ok()
    ensures var (next, verdict) := Step(st, c, pass);
      Run(st, [c], pass) == (next, verdict)
  {
    RunOne(st, c, [], pass);
    assert [c] + [] == [c];
  }

  /** One field and what follows it. */
  function FieldStream(f: Field, rest: seq<Callback>): seq<Callback> {
    [FieldStart(f.name, f.value.JNull?)] + (Stream(f.value) + rest)
  }

  lemma FieldsInTwo(fields: seq<Field>)
    requires fields != []
    ensures StreamFields(fields) == FieldStream(fields[0], StreamFields(fields[1..]))
  {
  }

  /** The state with other bounds. */
  function WithBounds(st: State, b: Bounds): State {
    st.(start := b.start, end := b.end, startSet := b.startSet, endSet := b.endSet)
  }

  /** The value of a bound. */
  lemma StartValue(st: State, v: Json, rest: seq<Callback>, pass: nat -> bool)
    requires st.Ok() && st.awaits == RangeField
    ensures var open := st.(awaits := RangeStart);
      Run(open, Stream(v) + rest, pass) ==
      if v.JNumber? && v.number.Int? then Run(st.(start := v.number.n, startSet := true), rest, pass) else (open, if v.JNull? then Raised else Misplaced(v))
  {
    RunValue(st.(awaits := RangeStart), v, rest, pass);
    assert [] + rest == rest;
  }

  lemma EndValue(st: State, v: Json, rest: seq<Callback>, pass: nat -> bool)
    requires st.Ok() && st.awaits == RangeField
    ensures var open := st.(awaits := RangeEnd);
      Run(open, Stream(v) + rest, pass) ==
      if v.JNumber? && v.number.Int? then Run(st.(end := v.number.n, endSet := true), rest, pass) else (open, if v.JNull? then Raised else Misplaced(v))
  {
    RunValue(st.(awaits := RangeEnd), v, rest, pass);
    assert [] + rest == rest;
  }

  /** Anything but a field or the closing brace is refused inside a range. */
  lemma NoValue(st: State, v: Json, rest: seq<Callback>, pass: nat -> bool)
    requires st.Ok() && st.awaits == RangeField
    ensures Run(st, Stream(v) + rest, pass) == (st, Failed)
  {
    RunValue(st, v, rest, pass);
  }

  /** One field of a range object. */
  lemma OneBound(st: State, f: Field, rest: seq<Callback>, pass: nat -> bool)
    requires st.Ok() && st.awaits == RangeField
    ensures var r := Run(st, FieldStream(f, rest), pass);
      var w := WalkBound(BoundsOf(st), f);
      if w.Within? then r == Run(WithBounds(st, w.bounds), rest, pass)
      else r.1 == w.why && r.0.actions == st.actions && r.0.calls == st.calls
  {
    RunOne(st, FieldStart(f.name, f.value.JNull?), Stream(f.value) + rest, pass);
    if f.name == Start || f.name == Finish {
      if f.value.JNull? {
        NoValue(st, f.value, rest, pass);
      } else if f.name == Start {
        StartValue(st, f.value, rest, pass);
      } else {
        EndValue(st, f.value, rest, pass);
      }
    }
  }

  /** The fields of a range object, in any order and any number. */
  lemma {:induction false} RangeFields(st: State, fields: seq<Field>, pass: nat -> bool)
    requires st.Ok() && st.awaits == RangeField
    ensures var (r, end) := Run(st, StreamFields(fields), pass);
      var w := WalkBounds(BoundsOf(st), fields);
      if w.Within? then end == Success && r == WithBounds(st, w.bounds)
      else end == w.why && r.actions == st.actions && r.calls == st.calls
    decreases |fields|
  {
    if fields != [] {
      FieldsInTwo(fields);
      OneBound(st, fields[0], StreamFields(fields[1..]), pass);
      var w := WalkBound(BoundsOf(st), fields[0]);
      if w.Within? {
        RangeFields(WithBounds(st, w.bounds), fields[1..], pass);
      }
    }
  }

  /** The fields and the closing brace. */
  lemma RangeBody(st: State, fields: seq<Field>, pass: nat -> bool)
    requires st.Ok() && st.awaits == RangeField && !st.startSet && !st.endSet
    ensures Follows(st, Run(st, StreamFields(fields) + [ObjectEnd], pass), WalkRange(st.filename.value, JObject(fields)), RangeObject, st.filename, pass)
  {
    RunInTwo(st, StreamFields(fields), [ObjectEnd], pass);
    RangeFields(st, fields, pass);
    SameBounds(BoundsOf(st), Bounds(0, 0, false, false), fields);
    var r := Run(st, StreamFields(fields), pass);
    if r.1.Success? {
      RunLast(r.0, ObjectEnd, pass);
    }
  }

  /** Only an object opens a range. */
  lemma RangeOpens(st: State, v: Json, pass: nat -> bool)
    requires st.Ok() && st.awaits == RangeObject
    ensures Run(st, Stream(v), pass) ==
      if v.JObject? then Run(OnObjectStart(st).0, StreamFields(v.fields) + [ObjectEnd], pass) else (st, Failed)
  {
    RunAlone(st, v, pass);
  }

  lemma OneRange(st: State, v: Json, pass: nat -> bool)
    requires st.Ok() && st.awaits == RangeObject
    ensures Follows(st, Run(st, Stream(v), pass), WalkRange(st.filename.value, v), RangeObject, st.filename, pass)
  {
    RangeOpens(st, v, pass);
    if v.JObject? {
      RangeBody(OnObjectStart(st).0, v.fields, pass);
    }
  }

  /** The bounds of an earlier range do not shine through: with neither bound set,
      the old values are only kept if they are not used. */
  lemma {:induction false} SameBounds(a: Bounds, b: Bounds, fields: seq<Field>)
    requires a.startSet == b.startSet && (a.startSet ==> a.start == b.start)
    requires a.endSet == b.endSet && (a.endSet ==> a.end == b.end)
    ensures var (x, y) := (WalkBounds(a, fields), WalkBounds(b, fields));
      && (x.Stop? <==> y.Stop?)
      && (x.Stop? ==> x == y)
      && (x.Within? ==>
            && x.bounds.startSet == y.bounds.startSet && (x.bounds.startSet ==> x.bounds.start == y.bounds.start)
            && x.bounds.endSet == y.bounds.endSet && (x.bounds.endSet ==> x.bounds.end == y.bounds.end))
    decreases |fields|
  {
    if fields != [] && WalkBound(a, fields[0]).Within? {
      SameBounds(WalkBound(a, fields[0]).bounds, WalkBound(b, fields[0]).bounds, fields[1..]);
    }
  }

  // ---------------------------------------------------------------- the ranges of a file, the files

  lemma {:induction false} Ranges(st: State, vs: seq<Json>, pass: nat -> bool)
    requires st.Ok() && st.awaits == RangeObject
    ensures Follows(st, Run(st, StreamElems(vs), pass), WalkRanges(st.filename.value, vs), RangeObject, st.filename, pass)
    decreases |vs|
  {
    if vs != [] {
      RunInTwo(st, Stream(vs[0]), StreamElems(vs[1..]), pass);
      OneRange(st, vs[0], pass);
      var r := Run(st, Stream(vs[0]), pass);
      if r.1.Success? {
        Ranges(r.0, vs[1..], pass);
      }
      var s := Run(st, StreamElems(vs), pass);
      FollowsThen(st, r, WalkRange(st.filename.value, vs[0]), RangeObject, st.filename,
                  s, WalkRanges(st.filename.value, vs[1..]), RangeObject, st.filename, pass);
    }
  }

  /** The array of ranges with its brackets. */
  lemma RangeList(st: State, v: Json, pass: nat -> bool)
    requires st.Ok() && st.awaits == RangeArray && v.JArray?
    ensures Follows(st, Run(st, Stream(v), pass), WalkRanges(st.filename.value, v.elems), FileEnd, st.filename, pass)
  {
    RunAlone(st, v, pass);
    var st1 := OnArrayStart(st).0;
    RunInTwo(st1, StreamElems(v.elems), [ArrayEnd], pass);
    Ranges(st1, v.elems, pass);
    var r := Run(st1, StreamElems(v.elems), pass);
    if r.1.Success? {
      RunLast(r.0, ArrayEnd, pass);
    }
  }

  /** Elements and the bracket that closes them. */
  function Closed(vs: seq<Json>): seq<Callback> {
    StreamElems(vs) + [ArrayEnd]
  }

  lemma ClosedInTwo(vs: seq<Json>)
    ensures vs == [] ==> Closed(vs) == [ArrayEnd]
    ensures vs != [] ==> Closed(vs) == Stream(vs[0]) + Closed(vs[1..])
  {
  }

  /** After the ranges only the closing bracket is accepted. */
  lemma FileTail(st: State, vs: seq<Json>, pass: nat -> bool)
    requires st.Ok() && st.awaits == FileEnd
    ensures Follows(st, Run(st, Closed(vs), pass), Walk([], if vs == [] then Success else Failed), FileTuple, None, pass)
  {
    ClosedInTwo(vs);
    if vs == [] {
      RunLast(st, ArrayEnd, pass);
    } else {
      RunValue(st, vs[0], Closed(vs[1..]), pass);
    }
  }

  /** The ranges of a file and what comes after them. */
  lemma FileRanges(st: State, v: Json, more: seq<Json>, pass: nat -> bool)
    requires st.Ok() && st.awaits == RangeArray && v.JArray?
    ensures Follows(st, Run(st, Stream(v) + Closed(more), pass),
                    Then(WalkRanges(st.filename.value, v.elems), Walk([], if more == [] then Success else Failed)), FileTuple, None, pass)
  {
    RunInTwo(st, Stream(v), Closed(more), pass);
    RangeList(st, v, pass);
    var r := Run(st, Stream(v), pass);
    if r.1.Success? {
      FileTail(r.0, more, pass);
    }
    FollowsThen(st, r, WalkRanges(st.filename.value, v.elems), FileEnd, st.filename,
                Run(st, Stream(v) + Closed(more), pass), Walk([], if more == [] then Success else Failed), FileTuple, None, pass);
  }

  /** The elements of a file's tuple after its name. */
  lemma FileRest(st: State, vs: seq<Json>, pass: nat -> bool)
    requires st.Ok() && st.awaits == RangeArray
    ensures Follows(st, Run(st, Closed(vs), pass), WalkRest(st.filename.value, vs), FileTuple, None, pass)
  {
    ClosedInTwo(vs);
    if vs == [] {
      RunLast(st, ArrayEnd, pass);
    } else if vs[0].JArray? {
      FileRanges(st, vs[0], vs[1..], pass);
    } else {
      RunValue(st, vs[0], Closed(vs[1..]), pass);
    }
  }

  lemma InFile(st: State, vs: seq<Json>, pass: nat -> bool)
    requires st.Ok() && st.awaits == FileName
    ensures Follows(st, Run(st, Closed(vs), pass), WalkTuple(vs), FileTuple, None, pass)
  {
    ClosedInTwo(vs);
    if vs == [] {
      RunLast(st, ArrayEnd, pass);
    } else {
      RunValue(st, vs[0], Closed(vs[1..]), pass);
      if vs[0].JString? {
        assert [] + Closed(vs[1..]) == Closed(vs[1..]);
        FileRest(OnScalar(st, vs[0]).0, vs[1..], pass);
      }
    }
  }

  /** Only an array opens a file. */
  lemma FileOpens(st: State, v: Json, pass: nat -> bool)
    requires st.Ok() && st.awaits == FileTuple
    ensures Run(st, Stream(v), pass) ==
      if v.JArray? then Run(OnArrayStart(st).0, Closed(v.elems), pass) else (st, Failed)
  {
    RunAlone(st, v, pass);
  }

  lemma OneFile(st: State, v: Json, pass: nat -> bool)
    requires st.Ok() && st.awaits == FileTuple
    ensures Follows(st, Run(st, Stream(v), pass), WalkFile(v), FileTuple, None, pass)
  {
    FileOpens(st, v, pass);
    if v.JArray? {
      InFile(OnArrayStart(st).0, v.elems, pass);
    }
  }

  lemma {:induction false} Files(st: State, vs: seq<Json>, pass: nat -> bool)
    requires st.Ok() && st.awaits == FileTuple && st.filename == None
    ensures Follows(st, Run(st, StreamElems(vs), pass), WalkFiles(vs), FileTuple, None, pass)
    decreases |vs|
  {
    if vs != [] {
      RunInTwo(st, Stream(vs[0]), StreamElems(vs[1..]), pass);
      OneFile(st, vs[0], pass);
      var r := Run(st, Stream(vs[0]), pass);
      if r.1.Success? {
        Files(r.0, vs[1..], pass);
      }
      FollowsThen(st, r, WalkFile(vs[0]), FileTuple, None,
                  Run(st, StreamElems(vs), pass), WalkFiles(vs[1..]), FileTuple, None, pass);
    }
  }

  // ---------------------------------------------------------------- the whole document

  /** What stands in the place of the list of files amounts to. */
  function FilesWalk(v: Json): Walk {
    if !v.JArray? then Walk([], Failed)
    else
      var w := WalkFiles(v.elems);
      Walk(w.calls, if w.end.Success? then Failed else w.end)
  }

  /** A list of files runs to its closing bracket and no further. */
  lemma FileList(st: State, v: Json, rest: seq<Callback>, pass: nat -> bool)
    requires st.Ok() && st.awaits == FileArray && st.filename == None && v.JArray?
    ensures Follows(st, Run(st, Stream(v) + rest, pass), FilesWalk(v), End, None, pass)
  {
    var (elems, tail) := (StreamElems(v.elems), [ArrayEnd] + rest);
    RunValue(st, v, rest, pass);
    assert Tail(v) + rest == elems + tail;
    var st1 := OnArrayStart(st).0;
    RunInTwo(st1, elems, tail, pass);
    Files(st1, v.elems, pass);
    var r := Run(st1, elems, pass);
    if r.1.Success? {
      RunOne(r.0, ArrayEnd, rest, pass);
    }
  }

  /** The name of the package. */
  lemma PackageField(st: State, v: Json, rest: seq<Callback>, pass: nat -> bool)
    requires st.Ok() && st.awaits == PackageName
    ensures Run(st, Stream(v) + rest, pass) ==
      if v.JString? then Run(st.(awaits := TopField, package := Some(v.text)), rest, pass)
      else (st, if v.JNull? then Raised else Misplaced(v))
  {
    RunValue(st, v, rest, pass);
    assert [] + rest == rest;
  }

  /** The list of files, or something else in its place. */
  lemma FilesField(st: State, v: Json, rest: seq<Callback>, pass: nat -> bool)
    requires st.Ok() && st.awaits == FileArray && st.filename == None
    ensures Follows(st, Run(st, Stream(v) + rest, pass), FilesWalk(v), End, None, pass)
  {
    if v.JArray? {
      FileList(st, v, rest, pass);
    } else {
      RunValue(st, v, rest, pass);
    }
  }

  /** A null after a field name that is ignored for it. */
  lemma NullField(st: State, rest: seq<Callback>, pass: nat -> bool)
    requires st.Ok() && st.awaits == TopField
    ensures Run(st, Stream(JNull) + rest, pass) == (st, Failed)
  {
    RunValue(st, JNull, rest, pass);
  }

  /** One field of the document. */
  lemma OneTopField(st: State, f: Field, rest: seq<Callback>, pass: nat -> bool)
    requires st.Ok() && st.awaits == TopField && st.filename == None
    ensures var r := Run(st, FieldStream(f, rest), pass);
      if f.name == Package && f.value.JString? then r == Run(st.(package := Some(f.value.text)), rest, pass)
      else Follows(st, r, WalkTop([f]), End, None, pass)
  {
    RunOne(st, FieldStart(f.name, f.value.JNull?), Stream(f.value) + rest, pass);
    if f.name == Package || f.name == FileAndIndex {
      if f.value.JNull? {
        NullField(st, rest, pass);
      } else if f.name == Package {
        PackageField(st.(awaits := PackageName), f.value, rest, pass);
      } else {
        FilesField(st.(awaits := FileArray), f.value, rest, pass);
      }
    }
  }

  lemma {:induction false} TopFields(st: State, fields: seq<Field>, pass: nat -> bool)
    requires st.Ok() && st.awaits == TopField && st.filename == None
    ensures var named := st.(package := PackageAt(fields, st.package));
      Follows(named, Run(st, StreamFields(fields), pass), WalkTop(fields), TopField, None, pass)
    decreases |fields|
  {
    if fields != [] {
      var f := fields[0];
      FieldsInTwo(fields);
      OneTopField(st, f, StreamFields(fields[1..]), pass);
      if f.name == Package && f.value.JString? {
        TopFields(st.(package := Some(f.value.text)), fields[1..], pass);
      }
    }
  }

  /** For any JSON document at all: the streaming machine makes the calls of the
      tree walk, in order, whatever their outcomes, and calls the driver's finish
      function exactly if the walk accepts the document. */
  lemma StreamingIsWalking(v: Json, pass: nat -> bool)
    ensures var (r, end) := Run(INITIAL, Stream(v), pass);
      && end == WalkDocument(v).end
      && r.actions == Perform(WalkDocument(v).calls, 0, pass, PackageOf(v)) + (if end.Success? then [Finished] else [])
  {
    RunAlone(INITIAL, v, pass);
    if v.JObject? {
      var st := OnObjectStart(INITIAL).0;
      RunInTwo(st, StreamFields(v.fields), [ObjectEnd], pass);
      TopFields(st, v.fields, pass);
      var r := Run(st, StreamFields(v.fields), pass);
      if r.1.Success? {
        RunLast(r.0, ObjectEnd, pass);
      }
    }
  }

  // ---------------------------------------------------------------- what is left behind

  /** The tests that were called, and whether each passed. */
  function Outcomes(actions: seq<Action>): seq<(string, int, bool)> {
    if actions == [] then []
    else (if actions[0].Ran? then [(actions[0].file, actions[0].index, actions[0].passed)] else []) + Outcomes(actions[1..])
  }

  /** Action `k` is a failed call only if the next prints it for the package, and
      prints only what the one before it was. */
  predicate ReportedAt(actions: seq<Action>, package: Option<string>, k: nat)
    requires k < |actions|
  {
    match actions[k]
    case Ran(f, i, passed) => !passed ==> k + 1 < |actions| && actions[k + 1] == Printed(package, f, i)
    case Printed(p, f, i) => p == package && k > 0 && actions[k - 1] == Ran(f, i, false)
    case Finished => true
  }

  /** A failure is printed right behind the call that failed, for its package, and
      nothing else is printed. */
  predicate Reported(actions: seq<Action>, package: Option<string>) {
    forall k :: 0 <= k < |actions| ==> ReportedAt(actions, package, k)
  }

  lemma {:induction false} OutcomesInTwo(a: seq<Action>, b: seq<Action>)
    ensures Outcomes(a + b) == Outcomes(a) + Outcomes(b)
    decreases |a|
  {
    if a == [] {
      assert a + b == b;
    } else {
      OutcomesInTwo(a[1..], b);
      assert (a + b)[1..] == a[1..] + b;
    }
  }

  lemma ReportedInTwo(a: seq<Action>, b: seq<Action>, package: Option<string>)
    requires Reported(a, package) && Reported(b, package)
    ensures Reported(a + b, package)
  {
    forall k | 0 <= k < |a + b| ensures ReportedAt(a + b, package, k) {
      if k < |a| {
        assert ReportedAt(a, package, k);
      } else {
        assert ReportedAt(b, package, k - |a|);
      }
    }
  }

  lemma OneIsReported(call: (string, int), passed: bool, package: Option<string>)
    ensures Reported(PerformOne(call, passed, package), package)
    ensures Outcomes(PerformOne(call, passed, package)) == [(call.0, call.1, passed)]
  {
    var acts := PerformOne(call, passed, package);
    if passed {
      assert acts == [Ran(call.0, call.1, true)] && acts[1..] == [];
    } else {
      assert acts[1..] == [Printed(package, call.0, call.1)] && acts[1..][1..] == [];
      assert Outcomes(acts[1..]) == [];
    }
  }

  lemma {:induction false} PerformReports(calls: seq<(string, int)>, n: nat, pass: nat -> bool, package: Option<string>)
    ensures var acts := Perform(calls, n, pass, package);
      && Reported(acts, package)
      && |Outcomes(acts)| == |calls|
      && forall k :: 0 <= k < |calls| ==> Outcomes(acts)[k] == (calls[k].0, calls[k].1, pass(n + k))
  {
    if calls != [] {
      var (one, rest) := (PerformOne(calls[0], pass(n), package), Perform(calls[1..], n + 1, pass, package));
      PerformReports(calls[1..], n + 1, pass, package);
      OneIsReported(calls[0], pass(n), package);
      ReportedInTwo(one, rest, package);
      OutcomesInTwo(one, rest);
      forall k | 0 <= k < |calls| ensures Outcomes(one + rest)[k] == (calls[k].0, calls[k].1, pass(n + k)) {
        if k > 0 {
          assert Outcomes(rest)[k - 1] == (calls[1..][k - 1].0, calls[1..][k - 1].1, pass(n + 1 + (k - 1)));
        }
      }
    }
  }

  /** For any JSON document and any outcomes, in what the run leaves behind: the
      tests called are those of the tree walk in order, the `k`-th with outcome
      `pass(k)`; and the printed failures are those of the failed calls, each right
      behind its call. */
  lemma EveryFailureIsPrinted(v: Json, pass: nat -> bool)
    ensures var (acts, calls) := (Run(INITIAL, Stream(v), pass).0.actions, WalkDocument(v).calls);
      && Outcomes(acts) == seq(|calls|, k requires 0 <= k < |calls| => (calls[k].0, calls[k].1, pass(k)))
      && Reported(acts, PackageOf(v))
  {
    StreamingIsWalking(v, pass);
    var calls := WalkDocument(v).calls;
    PerformReports(calls, 0, pass, PackageOf(v));
    var end := if WalkDocument(v).end.Success? then [Finished] else [];
    assert Outcomes(end) == [] by {
      assert WalkDocument(v).end.Success? ==> end[1..] == [];
    }
    OutcomesInTwo(Perform(calls, 0, pass, PackageOf(v)), end);
    ReportedInTwo(Perform(calls, 0, pass, PackageOf(v)), end, PackageOf(v));
  }

  // ---------------------------------------------------------------- what a test spec leads to

  /** A range of test indices, with its two bounds written in either order. */
  datatype RangeSpec = RangeSpec(start: int, end: int, endFirst: bool)
  datatype FileSpec = FileSpec(name: string, ranges: seq<RangeSpec>)

  function RangeJson(r: RangeSpec): Json {
    var (s, e) := (Field(Start, JNumber(Int(r.start))), Field(Finish, JNumber(Int(r.end))));
    JObject(if r.endFirst then [e, s] else [s, e])
  }

  function RangesJson(rs: seq<RangeSpec>): seq<Json> {
    seq(|rs|, i requires 0 <= i < |rs| => RangeJson(rs[i]))
  }

  function FileJson(file: FileSpec): Json {
    JArray([JString(file.name), JArray(RangesJson(file.ranges))])
  }

  function FilesJson(files: seq<FileSpec>): seq<Json> {
    seq(|files|, i requires 0 <= i < |files| => FileJson(files[i]))
  }

  /** The document `moon test` passes. */
  function SpecJson(package: string, files: seq<FileSpec>): Json {
    JObject([Field(Package, JString(package)), Field(FileAndIndex, JArray(FilesJson(files)))])
  }

  function RangeTests(file: string, rs: seq<RangeSpec>): seq<(string, int)> {
    if rs == [] then [] else Indices(file, rs[0].start, rs[0].end) + RangeTests(file, rs[1..])
  }

  /** Every test of the spec: file by file, range by range, index by index. */
  function AllTests(files: seq<FileSpec>): seq<(string, int)> {
    if files == [] then [] else RangeTests(files[0].name, files[0].ranges) + AllTests(files[1..])
  }

  lemma WalkOneRange(file: string, r: RangeSpec)
    ensures WalkRange(file, RangeJson(r)) == Walk(Indices(file, r.start, r.end), Success)
  {
    var fields := RangeJson(r).fields;
    var (b0, last) := (Bounds(0, 0, false, false), fields[1..]);
    assert last == [fields[1]] && last[1..] == [];
    var b1 := WalkBound(b0, fields[0]).bounds;
    assert WalkBounds(b1, last) == Within(Bounds(r.start, r.end, true, true));
    assert WalkBounds(b0, fields) == WalkBounds(b1, last);
  }

  lemma {:induction false} WalkSpecRanges(file: string, rs: seq<RangeSpec>)
    ensures WalkRanges(file, RangesJson(rs)) == Walk(RangeTests(file, rs), Success)
  {
    if rs != [] {
      WalkOneRange(file, rs[0]);
      WalkSpecRanges(file, rs[1..]);
      assert RangesJson(rs)[1..] == RangesJson(rs[1..]);
    }
  }

  lemma WalkSpecFile(file: FileSpec)
    ensures WalkFile(FileJson(file)) == Walk(RangeTests(file.name, file.ranges), Success)
  {
    WalkSpecRanges(file.name, file.ranges);
    var tests := RangeTests(file.name, file.ranges);
    assert tests + [] == tests;
  }

  lemma {:induction false} WalkSpecFiles(files: seq<FileSpec>)
    ensures WalkFiles(FilesJson(files)) == Walk(AllTests(files), Success)
  {
    if files != [] {
      WalkSpecFile(files[0]);
      WalkSpecFiles(files[1..]);
      assert FilesJson(files)[1..] == FilesJson(files[1..]);
    }
  }

  /** Every listed test is called once, in order, whatever the outcomes; the failing
      ones are printed; and the run ends at the bracket that closes the list. */
  lemma SpecRunsEveryTest(package: string, files: seq<FileSpec>, pass: nat -> bool)
    ensures var (r, end) := Run(INITIAL, Stream(SpecJson(package, files)), pass);
      var tests := AllTests(files);
      && end == Failed
      && Outcomes(r.actions) == seq(|tests|, k requires 0 <= k < |tests| => (tests[k].0, tests[k].1, pass(k)))
      && Reported(r.actions, Some(package))
  {
    var v := SpecJson(package, files);
    StreamingIsWalking(v, pass);
    EveryFailureIsPrinted(v, pass);
    WalkSpecFiles(files);
    var list := v.fields[1..];
    assert WalkTop(list) == Walk(AllTests(files), Failed);
    assert WalkTop(v.fields) == WalkTop(list);
    assert PackageAt(v.fields, None) == PackageAt(list, Some(package));
  }

  predicate OnlyPackages(fields: seq<Field>) {
    forall i :: 0 <= i < |fields| ==> fields[i].name == Package && fields[i].value.JString?
  }

  lemma {:induction false} WalkTopIff(fields: seq<Field>)
    ensures WalkTop(fields).end.Success? <==> OnlyPackages(fields)
  {
    if fields != [] {
      WalkTopIff(fields[1..]);
      if OnlyPackages(fields[1..]) && fields[0].name == Package && fields[0].value.JString? {
        assert forall i :: 0 < i < |fields| ==> fields[i] == fields[1..][i - 1];
      }
      if OnlyPackages(fields) {
        assert forall i :: 0 <= i < |fields[1..]| ==> fields[1..][i] == fields[i + 1];
      }
    }
  }

  lemma {:induction false} PerformNeverFinishes(calls: seq<(string, int)>, n: nat, pass: nat -> bool, package: Option<string>)
    ensures Finished !in Perform(calls, n, pass, package)
  {
    if calls != [] {
      PerformNeverFinishes(calls[1..], n + 1, pass, package);
    }
  }

  /** The property that fails: the driver's finish function is called after the
      tests.  It is called exactly for documents that list no tests: objects with
      nothing but package names. */
  lemma FinishCalledIff(v: Json, pass: nat -> bool)
    ensures Finished in Run(INITIAL, Stream(v), pass).0.actions <==> v.JObject? && OnlyPackages(v.fields)
  {
    StreamingIsWalking(v, pass);
    PerformNeverFinishes(WalkDocument(v).calls, 0, pass, PackageOf(v));
    if v.JObject? {
      WalkTopIff(v.fields);
    }
  }

  /** Not even an empty list of files gets past its closing bracket. */
  lemma EmptyListNeverFinishes(pass: nat -> bool)
    ensures Finished !in Run(INITIAL, Stream(SpecJson("p", [])), pass).0.actions
  {
    FinishCalledIff(SpecJson("p", []), pass);
    assert SpecJson("p", []).fields[1].name == FileAndIndex;
  }

  // ---------------------------------------------------------------- the callbacks in place

  class JsonParseState {
    var awaits: Expect
    var package: Option<string>
    var filename: Option<string>
    var rangeIndex: nat
    var rangeStart: int
    var rangeEnd: int
    var rangeStartSet: bool
    var rangeEndSet: bool
    var calls: nat
    var actions: seq<Action>
    const pass: nat -> bool

    function View(): State
      reads this
    {
      State(awaits, package, filename, rangeIndex, rangeStart, rangeEnd, rangeStartSet, rangeEndSet, calls, actions)
    }

    constructor (outcomes: nat -> bool)
      ensures View() == INITIAL && pass == outcomes
    {
      awaits, package, filename := Top, None, None;
      rangeIndex, rangeStart, rangeEnd, rangeStartSet, rangeEndSet := 0, 0, 0, false, false;
      calls, actions, pass := 0, [], outcomes;
    }

    method ObjectStart() returns (v: Verdict)
      modifies this
      ensures (View(), v) == OnObjectStart(old(View()))
    {
      match awaits {
        case Top =>
          awaits := TopField;
        case RangeObject =>
          awaits := RangeField;
          rangeStartSet := false;
          rangeEndSet := false;
        case _ =>
          return Failed;
      }
      return Success;
    }

    /** One call of the test driver. */
    method Execute(i: int)
      requires filename.Some?
      modifies this`calls, this`actions
      ensures calls == old(calls) + 1
      ensures actions == old(actions) + PerformOne((filename.value, i), pass(old(calls)), package)
    {
      if pass(calls) {
        actions := actions + [Ran(filename.value, i, true)];
      } else {
        actions := actions + [Ran(filename.value, i, false)];
        actions := actions + [Printed(package, filename.value, i)];
      }
      calls := calls + 1;
    }

    /** The loop over the indices of a range. */
    method ExecuteRange()
      requires filename.Some?
      modifies this`calls, this`actions
      ensures var tests := Indices(filename.value, rangeStart, rangeEnd);
        calls == old(calls) + |tests| && actions == old(actions) + Perform(tests, old(calls), pass, package)
    {
      var i := rangeStart;
      ghost var total := actions + Perform(Indices(filename.value, i, rangeEnd), calls, pass, package);
      while i < rangeEnd
        invariant actions + Perform(Indices(filename.value, i, rangeEnd), calls, pass, package) == total
        invariant calls + |Indices(filename.value, i, rangeEnd)| == old(calls) + |Indices(filename.value, rangeStart, rangeEnd)|
        decreases rangeEnd - i
      {
        OneCall(actions, filename.value, i, rangeEnd, calls, pass, package);
        Execute(i);
        i := i + 1;
      }
    }

    method ObjectEnd() returns (v: Verdict)
      requires View().Ok()
      modifies this
      ensures (View(), v) == OnObjectEnd(old(View()), pass)
    {
      match awaits {
        case RangeField =>
          if !rangeStartSet || !rangeEndSet {
            return Raised;
          }
          ExecuteRange();
          rangeIndex := rangeIndex + 1;
          awaits := RangeObject;
        case TopField =>
          awaits := End;
          actions := actions + [Finished];
        case _ =>
          return Failed;
      }
      return Success;
    }

    method ArrayStart() returns (v: Verdict)
      modifies this
      ensures (View(), v) == OnArrayStart(old(View()))
    {
      match awaits {
        case FileArray =>
          awaits := FileTuple;
        case FileTuple =>
          awaits := FileName;
        case RangeArray =>
          awaits := RangeObject;
          rangeIndex := 0;
        case _ =>
          return Failed;
      }
      return Success;
    }

    method ArrayEnd() returns (v: Verdict)
      modifies this
      ensures (View(), v) == OnArrayEnd(old(View()))
    {
      match awaits {
        case RangeObject =>
          awaits := FileEnd;
        case FileEnd =>
          filename := None;
          awaits := FileTuple;
        case _ =>
          return Failed;
      }
      return Success;
    }

    method ObjectFieldStart(name: Name, isnull: bool) returns (v: Verdict)
      modifies this
      ensures (View(), v) == OnFieldStart(old(View()), name, isnull)
    {
      match awaits {
        case TopField =>
          if name == Package {
            if !isnull {
              awaits := PackageName;
            }
          } else if name == FileAndIndex {
            if !isnull {
              awaits := FileArray;
            }
          } else {
            return Raised;
          }
        case RangeField =>
          if name == Start {
            if !isnull {
              awaits := RangeStart;
            }
          } else if name == Finish {
            if !isnull {
              awaits := RangeEnd;
            }
          } else {
            return Raised;
          }
        case _ =>
          return Failed;
      }
      return Success;
    }

    method ScalarValue(token: Json) returns (v: Verdict)
      modifies this
      ensures (View(), v) == OnScalar(old(View()), token)
    {
      match awaits {
        case PackageName =>
          if !token.JString? {
            return Raised;
          }
          package := Some(token.text);
          awaits := TopField;
        case FileName =>
          if !token.JString? {
            return Raised;
          }
          filename := Some(token.text);
          awaits := RangeArray;
        case RangeStart =>
          if !token.JNumber? || !token.number.Int? {
            return Raised;
          }
          rangeStart, rangeStartSet := token.number.n, true;
          awaits := RangeField;
        case RangeEnd =>
          if !token.JNumber? || !token.number.Int? {
            return Raised;
          }
          rangeEnd, rangeEndSet := token.number.n, true;
          awaits := RangeField;
        case _ =>
          return Failed;
      }
      return Success;
    }

    method Deliver(c: Callback) returns (v: Verdict)
      requires View().Ok()
      modifies this
      ensures (View(), v) == Step(old(View()), c, pass)
    {
      match c {
        case ObjectStart => v := ObjectStart();
        case ObjectEnd => v := ObjectEnd();
        case ArrayStart => v := ArrayStart();
        case ArrayEnd => v := ArrayEnd();
        case FieldStart(name, isnull) => v := ObjectFieldStart(name, isnull);
        case Scalar(token) => v := ScalarValue(token);
      }
    }

    /** A parse: callbacks until one does not succeed. */
    method Parse(cs: seq<Callback>) returns (end: Verdict)
      requires View().Ok()
      modifies this
      ensures (View(), end) == Run(old(View()), cs, pass)
    {
      for i := 0 to |cs|
        invariant View().Ok()
        invariant Run(View(), cs[i..], pass) == Run(old(View()), cs, pass)
      {
        assert cs[i..][0] == cs[i] && cs[i..][1..] == cs[i + 1..];
        var v := Deliver(cs[i]);
        if !v.Success? {
          return v;
        }
      }
      return Success;
    }
  }
}
