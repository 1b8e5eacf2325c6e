/**
 moontest.c: running the tests that a JSON document lists, from the callbacks of a
 streaming parser.  The document's own tree is here too, with the stream of
 callbacks that pg_parse_json makes of it.
 */
module MoontestModel {
  import opened Base

  // ---------------------------------------------------------------- documents and their callbacks

  /** A number token that pg_strtoint32 accepts, or one it does not. */
  datatype Number = Int(n: int) | NotAnInt32

  datatype Json =
    | JNull
    | JBool(b: bool)
    | JNumber(number: Number)
    | JString(text: string)
    | JArray(elems: seq<Json>)
    | JObject(fields: seq<Field>)

  /** A field name, as far as the callbacks tell names apart. */
  datatype Name = Package | FileAndIndex | Start | Finish | Other(text: string)

  datatype Field = Field(name: Name, value: Json)

  datatype Callback =
    | ObjectStart
    | ObjectEnd
    | ArrayStart
    | ArrayEnd
    | FieldStart(name: Name, isnull: bool)
    | Scalar(token: Json)

  function Stream(v: Json): seq<Callback>
    decreases v, 1
  {
    match v
    case JArray(elems) => [ArrayStart] + StreamElems(elems) + [ArrayEnd]
    case JObject(fields) => [ObjectStart] + StreamFields(fields) + [ObjectEnd]
    case _ => [Scalar(v)]
  }

  function StreamElems(elems: seq<Json>): seq<Callback>
    decreases elems, 0
  {
    if elems == [] then [] else Stream(elems[0]) + StreamElems(elems[1..])
  }

  function StreamField(f: Field): seq<Callback>
    decreases f, 0
  {
    [FieldStart(f.name, f.value.JNull?)] + Stream(f.value)
  }

  function StreamFields(fields: seq<Field>): seq<Callback>
    decreases fields, 0
  {
    if fields == [] then [] else StreamField(fields[0]) + StreamFields(fields[1..])
  }

  // ---------------------------------------------------------------- the callbacks

  datatype Expect =
    | Top
    | TopField
    | PackageName
    | FileArray
    | FileTuple
    | FileName
    | RangeArray
    | RangeObject
    | RangeField
    | RangeStart
    | RangeEnd
    | FileEnd
    | End

  /** A test was called and passed or not; its failure was printed, with the name of
      the package if that is known; the driver's finish function was looked up, and
      called if there is one. */
  datatype Action =
    | Ran(file: string, index: int, passed: bool)
    | Printed(package: Option<string>, file: string, index: int)
    | Finished

  /** JsonParseState, and what was done so far. */
  datatype State = State(
    awaits: Expect,
    package: Option<string>,
    filename: Option<string>,
    rangeIndex: nat,
    start: int,
    end: int,
    startSet: bool,
    endSet: bool,
    calls: nat,
    actions: seq<Action>)
  {
    /** A file is open wherever a range may be. */
    predicate Ok() {
      awaits in {RangeArray, RangeObject, RangeField, RangeStart, RangeEnd, FileEnd} ==> filename.Some?
    }
  }

  const INITIAL := State(Top, None, None, 0, 0, 0, false, false, 0, [])

  /** JSON_SUCCESS; JSON_SEM_ACTION_FAILED, which ends the parse without a word; or an
      error raised. */
  datatype Verdict = Success | Failed | Raised

  /** Calls to make, in order: a file name and an index. */
  function Indices(file: string, lo: int, hi: int): (r: seq<(string, int)>)
    ensures |r| == if lo < hi then hi - lo else 0
    ensures forall k :: 0 <= k < |r| ==> r[k] == (file, lo + k)
    decreases hi - lo
  {
    if lo < hi then [(file, lo)] + Indices(file, lo + 1, hi) else []
  }

  /** Making `calls` for `package`; the `n`-th call of all passes if `pass(n)`. */
  function Perform(calls: seq<(string, int)>, n: nat, pass: nat -> bool, package: Option<string>): seq<Action> {
    if calls == [] then [] else PerformOne(calls[0], pass(n), package) + Perform(calls[1..], n + 1, pass, package)
  }

  function PerformOne(call: (string, int), passed: bool, package: Option<string>): seq<Action> {
    [Ran(call.0, call.1, passed)] + if passed then [] else [Printed(package, call.0, call.1)]
  }

  function OnObjectStart(st: State): (State, Verdict) {
    match st.awaits
    case Top => (st.(awaits := TopField), Success)
    case RangeObject => (st.(awaits := RangeField, startSet := false, endSet := false), Success)
    case _ => (st, Failed)
  }

  function OnObjectEnd(st: State, pass: nat -> bool): (State, Verdict)
    requires st.Ok()
  {
    match st.awaits
    case RangeField =>
      if !st.startSet || !st.endSet then (st, Raised)
      else
        var calls := Indices(st.filename.value, st.start, st.end);
        (st.(awaits := RangeObject, rangeIndex := st.rangeIndex + 1, calls := st.calls + |calls|,
             actions := st.actions + Perform(calls, st.calls, pass, st.package)), Success)
    case TopField => (st.(awaits := End, actions := st.actions + [Finished]), Success)
    case _ => (st, Failed)
  }

  function OnArrayStart(st: State): (State, Verdict) {
    match st.awaits
    case FileArray => (st.(awaits := FileTuple), Success)
    case FileTuple => (st.(awaits := FileName), Success)
    case RangeArray => (st.(awaits := RangeObject, rangeIndex := 0), Success)
    case _ => (st, Failed)
  }

  function OnArrayEnd(st: State): (State, Verdict) {
    match st.awaits
    case RangeObject => (st.(awaits := FileEnd), Success)
    case FileEnd => (st.(awaits := FileTuple, filename := None), Success)
    case _ => (st, Failed)
  }

  function OnFieldStart(st: State, name: Name, isnull: bool): (State, Verdict) {
    match st.awaits
    case TopField =>
      if name == Package then (if isnull then st else st.(awaits := PackageName), Success)
      else if name == FileAndIndex then (if isnull then st else st.(awaits := FileArray), Success)
      else (st, Raised)
    case RangeField =>
      if name == Start then (if isnull then st else st.(awaits := RangeStart), Success)
      else if name == Finish then (if isnull then st else st.(awaits := RangeEnd), Success)
      else (st, Raised)
    case _ => (st, Failed)
  }

  function OnScalar(st: State, token: Json): (State, Verdict) {
    match st.awaits
    case PackageName =>
      if token.JString? then (st.(awaits := TopField, package := Some(token.text)), Success) else (st, Raised)
    case FileName =>
      if token.JString? then (st.(awaits := RangeArray, filename := Some(token.text)), Success) else (st, Raised)
    case RangeStart =>
      if token.JNumber? && token.number.Int? then
        (st.(awaits := RangeField, start := token.number.n, startSet := true), Success)
      else (st, Raised)
    case RangeEnd =>
      if token.JNumber? && token.number.Int? then
        (st.(awaits := RangeField, end := token.number.n, endSet := true), Success)
      else (st, Raised)
    case _ => (st, Failed)
  }

  function Step(st: State, c: Callback, pass: nat -> bool): (r: (State, Verdict))
    requires st.Ok()
    ensures r.0.Ok()
  {
    match c
    case ObjectStart => OnObjectStart(st)
    case ObjectEnd => OnObjectEnd(st, pass)
    case ArrayStart => OnArrayStart(st)
    case ArrayEnd => OnArrayEnd(st)
    case FieldStart(name, isnull) => OnFieldStart(st, name, isnull)
    case Scalar(token) => OnScalar(st, token)
  }

  /** The parser stops at the first callback that does not succeed. */
  function Run(st: State, cs: seq<Callback>, pass: nat -> bool): (r: (State, Verdict))
    requires st.Ok()
    ensures r.0.Ok()
    decreases |cs|
  {
    if cs == [] then (st, Success)
    else
      var (next, v) := Step(st, cs[0], pass);
      if v.Success? then Run(next, cs[1..], pass) else (next, v)
  }

  // ---------------------------------------------------------------- the same document, walked as a tree

  /** What a part of the document leads to: the calls, and whether it is accepted, is
      refused without a word, or raises an error. */
  datatype Walk = Walk(calls: seq<(string, int)>, end: Verdict)

  datatype Bounds = Bounds(start: int, end: int, startSet: bool, endSet: bool)

  datatype Bounded = Within(bounds: Bounds) | Stop(why: Verdict)

  /** A scalar that is not null, in the place of another one, raises an error;
      anything else there is refused. */
  function Misplaced(v: Json): (r: Verdict)
    ensures !r.Success?
  {
    if v.JNull? || v.JArray? || v.JObject? then Failed else Raised
  }

  function WalkBound(b: Bounds, f: Field): (r: Bounded)
    ensures r.Stop? ==> !r.why.Success?
  {
    if f.name != Start && f.name != Finish then Stop(Raised)
    else if !(f.value.JNumber? && f.value.number.Int?) then Stop(Misplaced(f.value))
    else if f.name == Start then Within(b.(start := f.value.number.n, startSet := true))
    else Within(b.(end := f.value.number.n, endSet := true))
  }

  function WalkBounds(b: Bounds, fields: seq<Field>): (r: Bounded)
    ensures r.Stop? ==> !r.why.Success?
    decreases |fields|
  {
    if fields == [] then Within(b)
    else
      match WalkBound(b, fields[0])
      case Stop(why) => Stop(why)
      case Within(c) => WalkBounds(c, fields[1..])
  }

  function WalkRange(file: string, v: Json): Walk {
    if !v.JObject? then Walk([], Failed)
    else
      match WalkBounds(Bounds(0, 0, false, false), v.fields)
      case Within(b) => if b.startSet && b.endSet then Walk(Indices(file, b.start, b.end), Success) else Walk([], Raised)
      case Stop(why) => Walk([], why)
  }

  function Then(a: Walk, b: Walk): Walk {
    if a.end.Success? then Walk(a.calls + b.calls, b.end) else a
  }

  function WalkRanges(file: string, vs: seq<Json>): Walk {
    if vs == [] then Walk([], Success) else Then(WalkRange(file, vs[0]), WalkRanges(file, vs[1..]))
  }

  /** A file's tuple after its name: one array of ranges and nothing more. */
  function WalkRest(file: string, vs: seq<Json>): Walk {
    if vs == [] || !vs[0].JArray? then Walk([], Failed)
    else Then(WalkRanges(file, vs[0].elems), Walk([], if |vs| == 1 then Success else Failed))
  }

  function WalkTuple(vs: seq<Json>): Walk {
    if vs == [] then Walk([], Failed)
    else if vs[0].JString? then WalkRest(vs[0].text, vs[1..])
    else Walk([], if vs[0].JNull? then Raised else Misplaced(vs[0]))
  }

  function WalkFile(v: Json): Walk {
    if v.JArray? then WalkTuple(v.elems) else Walk([], Failed)
  }

  function WalkFiles(vs: seq<Json>): Walk {
    if vs == [] then Walk([], Success) else Then(WalkFile(vs[0]), WalkFiles(vs[1..]))
  }

  /** The array of files is read to its end, and its closing bracket refused. */
  function WalkTop(fields: seq<Field>): Walk {
    if fields == [] then Walk([], Success)
    else
      var f := fields[0];
      if f.name == Package then
        if f.value.JString? then WalkTop(fields[1..]) else Walk([], Misplaced(f.value))
      else if f.name == FileAndIndex then
        if f.value.JArray? then
          var w := WalkFiles(f.value.elems);
          Walk(w.calls, if w.end.Success? then Failed else w.end)
        else Walk([], Failed)
      else Walk([], Raised)
  }

  function WalkDocument(v: Json): Walk {
    if v.JObject? then WalkTop(v.fields) else Walk([], Failed)
  }

  /** The last name of the package before the list of files, or `before`. */
  function PackageAt(fields: seq<Field>, before: Option<string>): Option<string> {
    if fields != [] && fields[0].name == Package && fields[0].value.JString? then
      PackageAt(fields[1..], Some(fields[0].value.text))
    else before
  }

  function PackageOf(v: Json): Option<string> {
    if v.JObject? then PackageAt(v.fields, None) else None
  }
}
