/**
 A query on its way through the system: compile_query() stores the numbers of its
 converters, rst_init_query_plan() carves them into one allocation in another
 process, and execution reads them back from there.
 */
module QueryPlans {
  import opened Base
  import opened Marshal

  // ---------------------------------------------------------------- compile_query()

  /** What is stored of a query. */
  datatype Row = Row(
    argOids: seq<Oid>,
    argFns: seq<nat>,
    retType: seq<RefType>,
    retOids: seq<Oid>,
    fieldTypes: seq<RefType>,
    retFns: seq<nat>)

  /** A query of a module: the types of its argument and result fields, the array of
      OIDs it gives for the arguments with the length it claims, and the OIDs the
      planner describes for the results. */
  datatype Query = Query(
    argTypes: seq<RefType>,
    oidBuffer: seq<Oid>,
    oidCount: int,
    retType: RefType,
    fieldTypes: seq<RefType>,
    described: seq<Oid>)
  {
    /** The claimed length is right and the array is shorter. */
    predicate Overreads() { oidCount == |argTypes| && |oidBuffer| < |argTypes| }

    function ArgOids(): (r: seq<Oid>)
      requires |oidBuffer| >= |argTypes|
      ensures |r| == |argTypes|
    {
      oidBuffer[..|argTypes|]
    }
  }

  predicate Compiles(q: Query, types: Module) {
    && q.oidCount == |q.argTypes| <= |q.oidBuffer|
    && |q.described| == |q.fieldTypes|
    && (forall i :: 0 <= i < |q.argTypes| ==> WasmToPg(q.argTypes[i], q.ArgOids()[i], types).Some?)
    && (forall i :: 0 <= i < |q.fieldTypes| ==> PgToWasm(q.described[i], q.fieldTypes[i], types).Some?)
  }

  predicate IsCompiled(q: Query, types: Module, row: Row) {
    && |q.argTypes| <= |q.oidBuffer|
    && row.argOids == q.ArgOids() && row.retOids == q.described && row.fieldTypes == q.fieldTypes && row.retType == [q.retType]
    && |row.argFns| == |q.argTypes|
    && |row.retFns| == |q.fieldTypes| == |q.described|
    && (forall i :: 0 <= i < |q.argTypes| ==> WasmToPg(q.argTypes[i], row.argOids[i], types) == Some(row.argFns[i]))
    && (forall i :: 0 <= i < |q.fieldTypes| ==> PgToWasm(q.described[i], q.fieldTypes[i], types) == Some(row.retFns[i]))
  }

  method CompileArguments(ts: seq<RefType>, oids: seq<Oid>, types: Module) returns (fns: Option<seq<nat>>)
    requires |ts| == |oids|
    ensures fns.Some? <==> forall i :: 0 <= i < |ts| ==> WasmToPg(ts[i], oids[i], types).Some?
    ensures fns.Some? ==> |fns.value| == |ts| && forall i :: 0 <= i < |ts| ==> WasmToPg(ts[i], oids[i], types) == Some(fns.value[i])
  {
    var chosen: seq<nat> := [];
    for i := 0 to |ts|
      invariant |chosen| == i
      invariant forall k :: 0 <= k < i ==> WasmToPg(ts[k], oids[k], types) == Some(chosen[k])
    {
      var fn := WasmToPg(ts[i], oids[i], types);
      if fn.None? {
        return None;
      }
      chosen := chosen + [fn.value];
    }
    return Some(chosen);
  }

  method CompileColumns(oids: seq<Oid>, ts: seq<RefType>, types: Module) returns (fns: Option<seq<nat>>)
    requires |ts| == |oids|
    ensures fns.Some? <==> forall i :: 0 <= i < |ts| ==> PgToWasm(oids[i], ts[i], types).Some?
    ensures fns.Some? ==> |fns.value| == |ts| && forall i :: 0 <= i < |ts| ==> PgToWasm(oids[i], ts[i], types) == Some(fns.value[i])
  {
    var chosen: seq<nat> := [];
    for i := 0 to |ts|
      invariant |chosen| == i
      invariant forall k :: 0 <= k < i ==> PgToWasm(oids[k], ts[k], types) == Some(chosen[k])
    {
      var fn := PgToWasm(oids[i], ts[i], types);
      if fn.None? {
        return None;
      }
      chosen := chosen + [fn.value];
    }
    return Some(chosen);
  }

  /** compile_query() stores a row, raises an error, or reads past the array of
      OIDs. */
  datatype Compilation = Stored(row: Row) | Failed | Overread

  method CompileQuery(q: Query, types: Module) returns (c: Compilation)
    ensures c.Overread? <==> q.Overreads()
    ensures c.Stored? <==> Compiles(q, types)
    ensures c.Stored? ==> IsCompiled(q, types, c.row)
  {
    if q.oidCount != |q.argTypes| {
      return Failed;
    }
    if |q.oidBuffer| < |q.argTypes| {
      return Overread;
    }
    var argOids := q.ArgOids();
    var argFns := CompileArguments(q.argTypes, argOids, types);
    if argFns.None? || |q.fieldTypes| != |q.described| {
      return Failed;
    }
    var retFns := CompileColumns(q.described, q.fieldTypes, types);
    if retFns.None? {
      return Failed;
    }
    return Stored(Row(argOids, argFns.value, [q.retType], q.described, q.fieldTypes, retFns.value));
  }

  // ---------------------------------------------------------------- rst_init_query_plan()

  /** What 4 bytes of the allocation hold; a converter's address and a type take
      twice that. */
  datatype Word = Fresh | AConverter(fn: nat) | AType(t: RefType) | AnOid(oid: Oid) | SecondHalf

  /** The row is taken for a statement with `nattrs` result columns. */
  predicate Loads(row: Row, nattrs: nat) {
    && |row.argFns| == |row.argOids|
    && (nattrs > 0 ==> |row.retType| == 1 && |row.retOids| == nattrs && |row.fieldTypes| == nattrs)
    && |row.retFns| == nattrs
  }

  class QueryPlan {
    const mem: array<Word>
    const nargs: nat
    const nattrs: nat
    var wasmToPg: nat
    var pgToWasm: nat
    var retFieldTypes: nat
    var argTypes: nat
    var retTypes: nat
    var retType: Option<RefType>

    /** The carving of the single allocation. */
    constructor (nargs: nat, nattrs: nat)
      ensures fresh(mem) && this.nargs == nargs && this.nattrs == nattrs
      ensures Carved()
    {
      mem := new Word[2 * (nargs + nattrs) + 2 * nattrs + (nargs + nattrs)](i => Fresh);
      this.nargs, this.nattrs := nargs, nattrs;
      wasmToPg, pgToWasm, retFieldTypes, argTypes, retTypes := 0, 0, 0, 0, 0;
      retType := None;
      if nattrs > 0 {
        pgToWasm := 2 * nargs;
        retFieldTypes := 2 * (nargs + nattrs);
        if nargs > 0 {
          argTypes := 2 * (nargs + nattrs) + 2 * nattrs;
          retTypes := 2 * (nargs + nattrs) + 2 * nattrs + nargs;
        } else {
          retTypes := 2 * (nargs + nattrs) + 2 * nattrs;
        }
      } else if nargs > 0 {
        argTypes := 2 * nargs;
      }
    }

    /** The regions in use follow one another and fill the allocation. */
    ghost predicate Carved()
      reads this
    {
      && wasmToPg == 0
      && (nattrs > 0 ==> pgToWasm == 2 * nargs && retFieldTypes == pgToWasm + 2 * nattrs && retTypes + nattrs == mem.Length)
      && (nargs > 0 ==> argTypes == 2 * nargs + 4 * nattrs && argTypes + nargs + nattrs == mem.Length)
      && (nargs > 0 && nattrs > 0 ==> retTypes == argTypes + nargs)
      && (nargs == 0 && nattrs > 0 ==> retTypes == retFieldTypes + 2 * nattrs)
    }

    ghost predicate HoldsArguments(row: Row)
      requires |row.argFns| == |row.argOids| == nargs && Carved()
      reads this, mem
    {
      forall i :: 0 <= i < nargs ==> Pair(mem[..], wasmToPg + 2 * i, AConverter(row.argFns[i])) && mem[argTypes + i] == AnOid(row.argOids[i])
    }

    ghost predicate HoldsColumns(row: Row)
      requires |row.retOids| == |row.fieldTypes| == |row.retFns| == nattrs
      reads this, mem
    {
      && Ones(mem[..], retTypes, OidWords(row.retOids))
      && Pairs(mem[..], retFieldTypes, TypeWords(row.fieldTypes))
      && Pairs(mem[..], pgToWasm, FnWords(row.retFns))
    }

    /** Every part reads back what was put there. */
    ghost predicate Holds(row: Row)
      reads this, mem
    {
      && |row.argFns| == |row.argOids| == nargs && |row.retFns| == nattrs && Carved()
      && HoldsArguments(row)
      && (nattrs > 0 ==> |row.retOids| == |row.fieldTypes| == nattrs && HoldsColumns(row))
    }

    /** The loop over the arguments. */
    method FillArguments(row: Row)
      requires |row.argFns| == |row.argOids| == nargs && Carved()
      modifies mem
      ensures HoldsArguments(row)
    {
      for i := 0 to nargs
        invariant forall k :: 0 <= k < i ==> mem[wasmToPg + 2 * k] == AConverter(row.argFns[k]) && mem[wasmToPg + 2 * k + 1] == SecondHalf
        invariant forall k :: 0 <= k < i ==> mem[argTypes + k] == AnOid(row.argOids[k])
      {
        mem[wasmToPg + 2 * i], mem[wasmToPg + 2 * i + 1] := AConverter(row.argFns[i]), SecondHalf;
        mem[argTypes + i] := AnOid(row.argOids[i]);
      }
    }

    method FillPairs(at: nat, words: seq<Word>)
      requires at + 2 * |words| <= mem.Length
      modifies mem
      ensures Pairs(mem[..], at, words)
      ensures forall k :: 0 <= k < mem.Length && !(at <= k < at + 2 * |words|) ==> mem[k] == old(mem[k])
    {
      for i := 0 to |words|
        invariant forall k :: 0 <= k < i ==> Pair(mem[..], at + 2 * k, words[k])
        invariant forall k :: 0 <= k < mem.Length && !(at <= k < at + 2 * |words|) ==> mem[k] == old(mem[k])
      {
        mem[at + 2 * i], mem[at + 2 * i + 1] := words[i], SecondHalf;
      }
    }

    method FillOnes(at: nat, words: seq<Word>)
      requires at + |words| <= mem.Length
      modifies mem
      ensures Ones(mem[..], at, words)
      ensures forall k :: 0 <= k < mem.Length && !(at <= k < at + |words|) ==> mem[k] == old(mem[k])
    {
      for i := 0 to |words|
        invariant forall k :: 0 <= k < i ==> mem[at + k] == words[k]
        invariant forall k :: 0 <= k < mem.Length && !(at <= k < at + |words|) ==> mem[k] == old(mem[k])
      {
        mem[at + i] := words[i];
      }
    }

    /** The result types' OIDs, the field types and the converters, in the order of
        the code. */
    method FillColumns(row: Row)
      requires Carved() && nattrs > 0 && |row.retOids| == |row.fieldTypes| == |row.retFns| == nattrs
      modifies mem
      ensures HoldsColumns(row)
      ensures forall k :: 0 <= k < 2 * nargs ==> mem[k] == old(mem[k])
      ensures nargs > 0 ==> forall k :: argTypes <= k < argTypes + nargs ==> mem[k] == old(mem[k])
    {
      FillOnes(retTypes, OidWords(row.retOids));
      ghost var one := mem[..];
      FillPairs(retFieldTypes, TypeWords(row.fieldTypes));
      ghost var two := mem[..];
      OnesStay(one, two, retTypes, OidWords(row.retOids));
      FillPairs(pgToWasm, FnWords(row.retFns));
      OnesStay(two, mem[..], retTypes, OidWords(row.retOids));
      PairsStay(two, mem[..], retFieldTypes, TypeWords(row.fieldTypes));
    }

    /** The loops and the memcpy that fill the plan. */
    method Fill(row: Row)
      requires Carved() && nargs == |row.argOids| && Loads(row, nattrs)
      modifies this`retType, mem
      ensures Holds(row) && (nattrs > 0 ==> retType == Some(row.retType[0]))
    {
      FillArguments(row);
      if nattrs > 0 {
        retType := Some(row.retType[0]);
        FillColumns(row);
      }
    }

    /** The loop over the arguments in env_execute_statement(), up to the first
        converter that does not return.  The struct of arguments may be null. */
    method Execute(args: Option<seq<Cell>>, ghost row: Row) returns (r: Executed)
      requires Holds(row) && (args.Some? ==> |args.value| == nargs)
      ensures IsExecution(row, args, r)
    {
      var values: seq<Datum> := [];
      for i := 0 to nargs
        invariant |values| == i
        invariant i > 0 ==> args.Some?
        invariant forall k :: 0 <= k < i ==> Read(row.argFns[k], row.argOids[k], args.value[k]) == Got(values[k])
      {
        if args.None? {
          return Stopped(i, Misread);
        }
        assert Pair(mem[..], wasmToPg + 2 * i, AConverter(row.argFns[i]));
        var reading := Read(mem[wasmToPg + 2 * i].fn, mem[argTypes + i].oid, args.value[i]);
        if !reading.Got? {
          return Stopped(i, reading);
        }
        values := values + [reading.datum];
      }
      return Values(values);
    }

    /** The loop over the columns in env_tuple_lower(). */
    method Lower(columns: seq<Datum>, ghost row: Row) returns (r: Lowered)
      requires Holds(row) && |columns| == nattrs
      ensures IsLowering(row, columns, r)
    {
      if nattrs == 0 {
        return NoAttributes;
      }
      var fields: seq<Cell> := [];
      for i := 0 to nattrs
        invariant |fields| == i
        invariant forall k :: 0 <= k < i ==> Write(row.retFns[k], row.retOids[k], columns[k]) == Put(fields[k])
      {
        assert Pair(mem[..], pgToWasm + 2 * i, FnWords(row.retFns)[i]);
        assert mem[retTypes + i] == OidWords(row.retOids)[i];
        var written := Write(mem[pgToWasm + 2 * i].fn, mem[retTypes + i].oid, columns[i]);
        if written.Misused? {
          return Garbled(i);
        }
        fields := fields + [written.cell];
      }
      return Fields(fields);
    }
  }

  lemma PairsStay(was: seq<Word>, now: seq<Word>, at: nat, words: seq<Word>)
    requires Pairs(was, at, words) && |now| == |was|
    requires forall k :: at <= k < at + 2 * |words| && k < |now| ==> now[k] == was[k]
    ensures Pairs(now, at, words)
  {
    forall k | 0 <= k < |words| ensures Pair(now, at + 2 * k, words[k]) {
      assert Pair(was, at + 2 * k, words[k]);
    }
  }

  lemma OnesStay(was: seq<Word>, now: seq<Word>, at: nat, words: seq<Word>)
    requires Ones(was, at, words) && |now| == |was|
    requires forall k :: at <= k < at + |words| && k < |now| ==> now[k] == was[k]
    ensures Ones(now, at, words)
  {
  }

  function FnWords(fns: seq<nat>): (r: seq<Word>)
    ensures |r| == |fns|
  {
    seq(|fns|, i requires 0 <= i < |fns| => AConverter(fns[i]))
  }

  function OidWords(oids: seq<Oid>): (r: seq<Word>)
    ensures |r| == |oids|
  {
    seq(|oids|, i requires 0 <= i < |oids| => AnOid(oids[i]))
  }

  function TypeWords(ts: seq<RefType>): (r: seq<Word>)
    ensures |r| == |ts|
  {
    seq(|ts|, i requires 0 <= i < |ts| => AType(ts[i]))
  }

  predicate Pair(mem: seq<Word>, at: nat, w: Word) {
    at + 1 < |mem| && mem[at] == w && mem[at + 1] == SecondHalf
  }

  predicate Pairs(mem: seq<Word>, at: nat, words: seq<Word>) {
    forall k :: 0 <= k < |words| ==> Pair(mem, at + 2 * k, words[k])
  }

  predicate Ones(mem: seq<Word>, at: nat, words: seq<Word>) {
    forall k :: 0 <= k < |words| ==> at + k < |mem| && mem[at + k] == words[k]
  }

  /** rst_init_query_plan(): a filled plan, or nothing if a stored length is wrong. */
  method InitQueryPlan(row: Row, nattrs: nat) returns (plan: QueryPlan?)
    ensures plan != null <==> Loads(row, nattrs)
    ensures plan != null ==> fresh(plan) && fresh(plan.mem) && plan.nattrs == nattrs && plan.Holds(row)
  {
    if |row.argFns| != |row.argOids| {
      return null;
    }
    if nattrs > 0 && (|row.retType| != 1 || |row.retOids| != nattrs || |row.fieldTypes| != nattrs) {
      return null;
    }
    if |row.retFns| != nattrs {
      return null;
    }
    plan := new QueryPlan(|row.argOids|, nattrs);
    plan.Fill(row);
  }

  // ---------------------------------------------------------------- execution

  /** The values of a statement's arguments, or where and how reading them ended. */
  datatype Executed = Values(datums: seq<Datum>) | Stopped(at: nat, why: Reading)

  predicate IsExecution(row: Row, args: Option<seq<Cell>>, r: Executed)
    requires |row.argFns| == |row.argOids| && (args.Some? ==> |args.value| == |row.argOids|)
  {
    match args
    case None => r == if row.argFns == [] then Values([]) else Stopped(0, Misread)
    case Some(cells) =>
      match r
      case Values(ds) =>
        |ds| == |cells| && forall i :: 0 <= i < |cells| ==> Read(row.argFns[i], row.argOids[i], cells[i]) == Got(ds[i])
      case Stopped(at, why) =>
        && at < |cells| && why == Read(row.argFns[at], row.argOids[at], cells[at]) && !why.Got?
        && forall i :: 0 <= i < at ==> Read(row.argFns[i], row.argOids[i], cells[i]).Got?
  }

  /** The fields of a row, or where storing them went wrong. */
  datatype Lowered = Fields(cells: seq<Cell>) | Garbled(at: nat) | NoAttributes

  predicate IsLowering(row: Row, columns: seq<Datum>, r: Lowered)
    requires |row.retFns| == |columns| && (columns != [] ==> |row.retOids| == |columns|)
  {
    match r
    case Fields(cells) =>
      && columns != [] && |cells| == |columns|
      && forall i :: 0 <= i < |columns| ==> Write(row.retFns[i], row.retOids[i], columns[i]) == Put(cells[i])
    case Garbled(at) =>
      && at < |columns| && Write(row.retFns[at], row.retOids[at], columns[at]) == Misused
      && forall i :: 0 <= i < at ==> Write(row.retFns[i], row.retOids[i], columns[i]).Put?
    case NoAttributes => columns == []
  }

  /** The module passes arguments of the types its query has, or null for all. */
  ghost predicate Typed(q: Query, types: Module, args: Option<seq<Cell>>) {
    args.Some? ==>
      && |args.value| == |q.argTypes|
      && forall i :: 0 <= i < |q.argTypes| ==> q.argTypes[i].Ok() && HasType(args.value[i], q.argTypes[i], types)
  }

  /** The statement's rows are of the described types. */
  predicate IsRow(q: Query, columns: seq<Datum>) {
    |columns| == |q.described| && forall i :: 0 <= i < |columns| ==> IsColumn(columns[i], q.described[i])
  }

  /** Nothing is read that is not there, and nothing is refused. */
  predicate Sound(oid: Oid, c: Cell) {
    !Overruns(oid, c) && !Refused(oid, c)
  }

  /** What becomes of a statement: all arguments are read to data that suit, or
      reading stops at the first that overruns or is refused, and which it was. */
  predicate ReadsArguments(ts: seq<RefType>, oids: seq<Oid>, args: Option<seq<Cell>>, r: Executed)
    requires |ts| == |oids| && (args.Some? ==> |args.value| == |oids|)
  {
    match args
    case None => r == if oids == [] then Values([]) else Stopped(0, Misread)
    case Some(cells) =>
      match r
      case Values(ds) =>
        |ds| == |cells| && forall i :: 0 <= i < |cells| ==> Sound(oids[i], cells[i]) && Suits(ds[i], ts[i], oids[i], cells[i])
      case Stopped(at, why) =>
        && at < |cells|
        && (forall i :: 0 <= i < at ==> Sound(oids[i], cells[i]))
        && ((why == Misread && Overruns(oids[at], cells[at])) || (why == Raised && Refused(oids[at], cells[at])))
  }

  lemma StatementReadsItsArguments(q: Query, types: Module, row: Row, args: Option<seq<Cell>>, r: Executed)
    requires IsCompiled(q, types, row) && Typed(q, types, args) && IsExecution(row, args, r)
    ensures ReadsArguments(q.argTypes, row.argOids, args, r)
  {
    if args.Some? {
      forall i | 0 <= i < |args.value|
        ensures Read(row.argFns[i], row.argOids[i], args.value[i]) == Misread <==> Overruns(row.argOids[i], args.value[i])
        ensures Read(row.argFns[i], row.argOids[i], args.value[i]) == Raised <==> Refused(row.argOids[i], args.value[i])
      {
        ArgumentIsReadIff(q.argTypes[i], row.argOids[i], types, args.value[i], row.argFns[i]);
      }
      if r.Values? {
        forall i | 0 <= i < |args.value| ensures Suits(r.datums[i], q.argTypes[i], row.argOids[i], args.value[i]) {
          ArgumentSuits(q.argTypes[i], row.argOids[i], types, args.value[i], row.argFns[i]);
        }
      }
    }
  }

  /** What becomes of a row: a struct of the result type, or a stop at the first
      NULL array. */
  ghost predicate FillsFields(q: Query, types: Module, columns: seq<Datum>, r: Lowered)
    requires |q.described| == |columns|
  {
    match r
    case Fields(cells) =>
      && columns != []
      && (forall i :: 0 <= i < |columns| ==> !(IsArrayOid(q.described[i]) && columns[i] == DNull))
      && |cells| == |q.fieldTypes| == |columns|
      && forall i :: 0 <= i < |cells| ==> HasType(cells[i], q.fieldTypes[i], types) && Shows(cells[i], q.described[i], columns[i])
    case Garbled(at) =>
      && at < |columns| && IsArrayOid(q.described[at]) && columns[at] == DNull
      && forall i :: 0 <= i < at ==> !(IsArrayOid(q.described[i]) && columns[i] == DNull)
    case NoAttributes => columns == []
  }

  lemma RowFillsItsFields(q: Query, types: Module, row: Row, columns: seq<Datum>, r: Lowered)
    requires IsCompiled(q, types, row) && IsRow(q, columns) && IsLowering(row, columns, r)
    requires forall i :: 0 <= i < |q.fieldTypes| ==> q.fieldTypes[i].Ok()
    ensures FillsFields(q, types, columns, r)
  {
    forall i | 0 <= i < |columns|
      ensures var w := Write(row.retFns[i], row.retOids[i], columns[i]);
        && (w == Misused <==> IsArrayOid(q.described[i]) && columns[i] == DNull)
        && (w.Put? ==> HasType(w.cell, q.fieldTypes[i], types) && Shows(w.cell, q.described[i], columns[i]))
    {
      ColumnIsWrittenIff(q.described[i], q.fieldTypes[i], types, columns[i], row.retFns[i]);
    }
  }

  // ---------------------------------------------------------------- the whole way

  /** From the compiler through the stored row and the plan to the arguments: a
      query is refused, or its arguments are read as ReadsArguments says. */
  method CompileAndExecute(q: Query, types: Module, args: Option<seq<Cell>>) returns (r: Option<Executed>)
    requires Typed(q, types, args)
    ensures r.Some? <==> Compiles(q, types)
    ensures r.Some? ==> ReadsArguments(q.argTypes, q.ArgOids(), args, r.value)
  {
    var c := CompileQuery(q, types);
    if !c.Stored? {
      return None;
    }
    var plan := InitQueryPlan(c.row, |q.described|);
    var e := plan.Execute(args, c.row);
    StatementReadsItsArguments(q, types, c.row, args, e);
    return Some(e);
  }

  /** ... and back from the columns of a row to the fields of the result. */
  method CompileAndLower(q: Query, types: Module, columns: seq<Datum>) returns (r: Option<Lowered>)
    requires IsRow(q, columns) && forall i :: 0 <= i < |q.fieldTypes| ==> q.fieldTypes[i].Ok()
    ensures r.Some? <==> Compiles(q, types)
    ensures r.Some? ==> FillsFields(q, types, columns, r.value)
  {
    var c := CompileQuery(q, types);
    if !c.Stored? {
      return None;
    }
    var plan := InitQueryPlan(c.row, |q.described|);
    var l := plan.Lower(columns, c.row);
    RowFillsItsFields(q, types, c.row, columns, l);
    return Some(l);
  }
}
