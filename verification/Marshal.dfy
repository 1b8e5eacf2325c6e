/**
 compiler.c picks a converter for each query argument and result column by number;
 query.c looks the numbers up in its tables and applies the converters to values
 whose union member it takes on trust.
 */
module Marshal {
  import opened Base

  // ---------------------------------------------------------------- types and values of a WASM module

  datatype ValueType = I32 | I64 | F32 | F64 | ExternRef | NullableRef | NonNullableRef | OtherType

  const HEAP_EXTERN := -17

  /** wasm_ref_type_t. */
  datatype RefType = RefType(valueType: ValueType, heap: int) {
    /** Only references have a heap type. */
    predicate Ok() { heap == HEAP_EXTERN ==> valueType in {ExternRef, NullableRef, NonNullableRef} }
  }

  datatype Defined = Struct(fields: seq<RefType>) | Array(elem: RefType) | Func

  type Module = map<nat, Defined>

  /** A wasm_value_t together with the member that was written. */
  datatype Cell = CI32(i32: int) | CI64(i64: int) | CF32(f32: real) | CF64(f64: real) | CRef(obj: Object)

  datatype Object =
    | Null
    | StructObj(fields: seq<Cell>)
    | ArrayObj(elems: seq<Cell>)
    | DatumObj(oid: Oid, datum: Datum)
    | Opaque

  datatype Oid =
    | BOOLOID | INT4OID | DATEOID | INT8OID | TIMESTAMPOID | TIMESTAMPTZOID | TIMEOID | FLOAT4OID | FLOAT8OID
    | TEXTOID | VARCHAROID | UUIDOID | JSONOID | JSONBOID | BYTEAOID | INTERVALOID
    | INT2ARRAYOID | INT4ARRAYOID | OtherOid(number: int)

  /** DNull is the datum 0 that stands for an SQL NULL; None is a NULL element. */
  datatype Datum =
    | DBool(b: bool) | DInt4(n: int) | DInt8(n: int) | DFloat4(r: real) | DFloat8(r: real)
    | DInt2s(ns: seq<Option<int>>) | DInt4s(ns: seq<Option<int>>) | DPointer(p: int) | DNull

  /** The value stored in `c` is one of type `t`. */
  ghost predicate HasType(c: Cell, t: RefType, types: Module)
    decreases c
  {
    match t.valueType
    case I32 => c.CI32?
    case I64 => c.CI64?
    case F32 => c.CF32?
    case F64 => c.CF64?
    case ExternRef => c.CRef?
    case NullableRef => c.CRef?
    case OtherType => true
    case NonNullableRef =>
      && c.CRef? && !c.obj.Null?
      && (t.heap in types ==>
          match types[t.heap]
          case Struct(fs) =>
            && c.obj.StructObj? && |c.obj.fields| == |fs|
            && forall i :: 0 <= i < |fs| ==> HasType(c.obj.fields[i], fs[i], types)
          case Array(elem) =>
            && c.obj.ArrayObj?
            && forall i :: 0 <= i < |c.obj.elems| ==> HasType(c.obj.elems[i], elem, types)
          case Func => true)
  }

  // ---------------------------------------------------------------- choosing

  /** validate_moonbit_array(): the element type of a struct of an array and a
      length. */
  function ArrayElement(t: RefType, types: Module): Option<RefType> {
    if t.valueType != NonNullableRef || t.heap !in types || !types[t.heap].Struct? then None
    else
      var fs := types[t.heap].fields;
      if |fs| != 2 then None
      else if fs[0].valueType != NonNullableRef || fs[0].heap !in types || !types[fs[0].heap].Array? then None
      else if fs[1].valueType != I32 then None
      else Some(types[fs[0].heap].elem)
  }

  predicate IsDatumOid(oid: Oid) {
    oid in {TEXTOID, VARCHAROID, UUIDOID, JSONOID, JSONBOID, BYTEAOID, INTERVALOID}
  }

  predicate IsExternal(t: RefType) {
    t.valueType == ExternRef || t.heap == HEAP_EXTERN
  }

  /** wasm_to_pg(): the number of the converter, in the order of the enum. */
  function WasmToPg(t: RefType, oid: Oid, types: Module): Option<nat> {
    match oid
    case BOOLOID => if t.valueType == I32 then Some(0) else None
    case INT4OID => if t.valueType == I32 then Some(1) else None
    case DATEOID => if t.valueType == I32 then Some(1) else None
    case INT8OID => if t.valueType == I64 then Some(2) else if t.valueType == I32 then Some(1) else None
    case TIMESTAMPOID => if t.valueType == I64 then Some(2) else None
    case TIMESTAMPTZOID => if t.valueType == I64 then Some(2) else None
    case TIMEOID => if t.valueType == I64 then Some(2) else None
    case FLOAT4OID => if t.valueType == F32 then Some(3) else None
    case FLOAT8OID => if t.valueType == F64 then Some(4) else None
    case INT2ARRAYOID => if IntArray(t, types) then Some(6) else None
    case INT4ARRAYOID => if IntArray(t, types) then Some(7) else None
    case _ => if IsDatumOid(oid) && IsExternal(t) then Some(5) else None
  }

  predicate IntArray(t: RefType, types: Module) {
    ArrayElement(t, types).Some? && ArrayElement(t, types).value.valueType == I32
  }

  /** pg_to_wasm(): likewise for result columns. */
  function PgToWasm(oid: Oid, t: RefType, types: Module): Option<nat> {
    match oid
    case BOOLOID => if t.valueType == I32 then Some(0) else None
    case INT4OID => if t.valueType == I32 then Some(1) else None
    case DATEOID => if t.valueType == I32 then Some(1) else None
    case INT8OID => if t.valueType == I64 then Some(2) else None
    case TIMESTAMPOID => if t.valueType == I64 then Some(2) else None
    case TIMESTAMPTZOID => if t.valueType == I64 then Some(2) else None
    case TIMEOID => if t.valueType == I64 then Some(2) else None
    case FLOAT4OID => if t.valueType == F32 then Some(3) else None
    case FLOAT8OID => if t.valueType == F64 then Some(4) else None
    case INT2ARRAYOID => if IntArray(t, types) then Some(6) else None
    case INT4ARRAYOID => if IntArray(t, types) then Some(7) else None
    case _ => if IsDatumOid(oid) && IsExternal(t) then Some(5) else None
  }

  /** The two choices are the same, but that a 32-bit argument is taken for a 64-bit
      parameter and no column is narrowed. */
  lemma ArgumentsAndColumnsAgree(t: RefType, oid: Oid, types: Module)
    ensures oid == INT8OID && t.valueType == I32 ==> WasmToPg(t, oid, types) == Some(1) && PgToWasm(oid, t, types) == None
    ensures !(oid == INT8OID && t.valueType == I32) ==> WasmToPg(t, oid, types) == PgToWasm(oid, t, types)
  {
  }

  /** A struct of two fields, a reference to an array of i32 and an i32. */
  predicate IsArrayOfInt(t: RefType, types: Module) {
    && t.valueType == NonNullableRef && t.heap in types
    && match types[t.heap]
       case Struct(fs) =>
         && |fs| == 2 && fs[1].valueType == I32
         && fs[0].valueType == NonNullableRef && fs[0].heap in types
         && (match types[fs[0].heap]
             case Array(elem) => elem.valueType == I32
             case _ => false)
       case _ => false
  }

  /** Which arguments a query may have, type by type. */
  lemma ArgumentIsAcceptedIff(t: RefType, oid: Oid, types: Module)
    requires t.Ok()
    ensures WasmToPg(t, oid, types).Some? <==>
      || (t.valueType == I32 && oid in {BOOLOID, INT4OID, DATEOID, INT8OID})
      || (t.valueType == I64 && oid in {INT8OID, TIMESTAMPOID, TIMESTAMPTZOID, TIMEOID})
      || (t.valueType == F32 && oid == FLOAT4OID)
      || (t.valueType == F64 && oid == FLOAT8OID)
      || (IsArrayOfInt(t, types) && oid in {INT2ARRAYOID, INT4ARRAYOID})
      || ((t.valueType == ExternRef || (t.valueType in {NullableRef, NonNullableRef} && t.heap == HEAP_EXTERN)) &&
          oid in {TEXTOID, VARCHAROID, UUIDOID, JSONOID, JSONBOID, BYTEAOID, INTERVALOID})
  {
  }

  // ---------------------------------------------------------------- arguments

  /** A converter produced a datum, raised an error, or read something that is not
      there: another member of the union than the one written, an element past the
      end of a buffer, or an object behind a null reference. */
  datatype Reading = Got(datum: Datum) | Raised | Misread

  /** The most elements palloc() gives room for, at 8 bytes each. */
  const MAX_ELEMENTS := 0x3FFF_FFFF / 8

  /** (int16_t) of a 32-bit value. */
  function ToInt16(n: int): (r: int)
    ensures -0x8000 <= r < 0x8000
  {
    (n + 0x8000) % 0x1_0000 - 0x8000
  }

  predicate IsInt16(n: int) { -0x8000 <= n < 0x8000 }

  predicate IsArrayOid(oid: Oid) {
    oid in {INT2ARRAYOID, INT4ARRAYOID}
  }

  /** A struct of an array and an i32. */
  predicate IsArrayStruct(c: Cell) {
    && c.CRef? && c.obj.StructObj? && |c.obj.fields| == 2
    && c.obj.fields[0].CRef? && c.obj.fields[0].obj.ArrayObj? && c.obj.fields[1].CI32?
  }

  function Buffer(c: Cell): seq<Cell> {
    if IsArrayStruct(c) then c.obj.fields[0].obj.elems else []
  }

  function LengthField(c: Cell): int {
    if IsArrayStruct(c) then c.obj.fields[1].i32 else 0
  }

  predicate AllI32(cells: seq<Cell>) {
    forall i :: 0 <= i < |cells| ==> cells[i].CI32?
  }

  function Elements(cells: seq<Cell>, narrow: bool): (r: seq<Option<int>>)
    requires AllI32(cells)
    ensures |r| == |cells|
  {
    seq(|cells|, i requires 0 <= i < |cells| => Some(if narrow then ToInt16(cells[i].i32) else cells[i].i32))
  }

  /** The first `len` elements of a buffer as an array of int2 or int4. */
  function Copied(buffer: seq<Cell>, len: int, narrow: bool): Reading {
    if len < 0 || len > MAX_ELEMENTS then Raised
    else if len > |buffer| || !AllI32(buffer[..len]) then Misread
    else
      var ns := Elements(buffer[..len], narrow);
      Got(if narrow then DInt2s(ns) else DInt4s(ns))
  }

  /** The array converters from the allocation on. */
  method CopyOut(buffer: seq<Cell>, len: int, narrow: bool) returns (r: Reading)
    ensures r == Copied(buffer, len, narrow)
  {
    if len < 0 || len > MAX_ELEMENTS {
      return Raised;
    }
    var ns := new Option<int>[len](i => None);
    for i := 0 to len
      invariant i <= |buffer| && AllI32(buffer[..i])
      invariant ns[..i] == Elements(buffer[..i], narrow)
    {
      if i >= |buffer| || !buffer[i].CI32? {
        assert len <= |buffer| ==> buffer[..len][i] == buffer[i];
        return Misread;
      }
      ns[i] := Some(if narrow then ToInt16(buffer[i].i32) else buffer[i].i32);
    }
    assert ns[..len] == ns[..];
    return Got(if narrow then DInt2s(ns[..]) else DInt4s(ns[..]));
  }

  /** The table wasm_to_pg_funcs[], by number. */
  function Read(fn: nat, oid: Oid, c: Cell): Reading {
    match fn
    case 0 => if c.CI32? then Got(DBool(c.i32 != 0)) else Misread
    case 1 => if c.CI32? then Got(DInt4(c.i32)) else Misread
    case 2 => if c.CI64? then Got(DInt8(c.i64)) else Misread
    case 3 => if c.CF32? then Got(DFloat4(c.f32)) else Misread
    case 4 => if c.CF64? then Got(DFloat8(c.f64)) else Misread
    case 5 => if !c.CRef? || c.obj.Null? then Misread
              else if c.obj.DatumObj? && c.obj.oid == oid then Got(c.obj.datum) else Raised
    case 6 => if IsArrayStruct(c) then Copied(Buffer(c), LengthField(c), true) else Misread
    case 7 => if IsArrayStruct(c) then Copied(Buffer(c), LengthField(c), false) else Misread
    case _ => Misread
  }

  /** The arguments whose types are right and that are misread all the same: an array
      whose length field exceeds its buffer, and a null reference. */
  predicate Overruns(oid: Oid, c: Cell) {
    if IsArrayOid(oid) then |Buffer(c)| < LengthField(c) <= MAX_ELEMENTS
    else IsDatumOid(oid) && c == CRef(Null)
  }

  /** The arguments that raise an error: a length no array can have, and an object
      that is no datum of the parameter's type. */
  predicate Refused(oid: Oid, c: Cell) {
    if IsArrayOid(oid) then LengthField(c) < 0 || LengthField(c) > MAX_ELEMENTS
    else IsDatumOid(oid) && c != CRef(Null) && !(c.CRef? && c.obj.DatumObj? && c.obj.oid == oid)
  }

  lemma IntArrayIsReadable(c: Cell, t: RefType, types: Module)
    requires IntArray(t, types) && HasType(c, t, types)
    ensures IsArrayStruct(c) && AllI32(Buffer(c))
  {
    var fs := types[t.heap].fields;
    assert HasType(c.obj.fields[0], fs[0], types) && HasType(c.obj.fields[1], fs[1], types);
    forall i | 0 <= i < |Buffer(c)| ensures Buffer(c)[i].CI32? {
      assert HasType(Buffer(c)[i], types[fs[0].heap].elem, types);
    }
  }

  /** The converter chosen for an argument reads only what the argument's type
      writes, with exactly these exceptions. */
  lemma ArgumentIsReadIff(t: RefType, oid: Oid, types: Module, c: Cell, fn: nat)
    requires t.Ok() && HasType(c, t, types) && WasmToPg(t, oid, types) == Some(fn)
    ensures Read(fn, oid, c) == Misread <==> Overruns(oid, c)
    ensures Read(fn, oid, c) == Raised <==> Refused(oid, c)
  {
    if IsArrayOid(oid) {
      IntArrayIsReadable(c, t, types);
    }
  }

  /** PostgreSQL's promise: a value of type `oid` that is not NULL is such a datum. */
  predicate IsDatumOf(d: Datum, oid: Oid) {
    match oid
    case BOOLOID => d.DBool?
    case INT4OID => d.DInt4?
    case DATEOID => d.DInt4?
    case INT8OID => d.DInt8?
    case TIMESTAMPOID => d.DInt8?
    case TIMESTAMPTZOID => d.DInt8?
    case TIMEOID => d.DInt8?
    case FLOAT4OID => d.DFloat4?
    case FLOAT8OID => d.DFloat8?
    case INT2ARRAYOID => d.DInt2s? && |d.ns| <= MAX_ELEMENTS && forall i :: 0 <= i < |d.ns| && d.ns[i].Some? ==> IsInt16(d.ns[i].value)
    case INT4ARRAYOID => d.DInt4s? && |d.ns| <= MAX_ELEMENTS
    case _ => d.DPointer?
  }

  /** The datum is the argument's value as one of type `oid`: a 32-bit argument of a
      64-bit parameter stays an int4, and an element of an int2[] is known up to
      multiples of 65536. */
  predicate Suits(d: Datum, t: RefType, oid: Oid, c: Cell) {
    if IsDatumOid(oid) then c == CRef(DatumObj(oid, d))
    else if IsArrayOid(oid) then
      && IsArrayStruct(c) && 0 <= LengthField(c) <= |Buffer(c)| && AllI32(Buffer(c)[..LengthField(c)])
      && IsDatumOf(d, oid) && |d.ns| == LengthField(c)
      && forall i :: 0 <= i < |d.ns| ==>
           d.ns[i].Some? && if oid == INT4ARRAYOID then d.ns[i].value == Buffer(c)[..LengthField(c)][i].i32
                            else (d.ns[i].value - Buffer(c)[..LengthField(c)][i].i32) % 0x1_0000 == 0
    else
      match c
      case CI32(n) => d == if oid == BOOLOID then DBool(n != 0) else DInt4(n)
      case CI64(n) => d == DInt8(n)
      case CF32(r) => d == DFloat4(r)
      case CF64(r) => d == DFloat8(r)
      case CRef(_) => false
  }

  lemma ArgumentSuits(t: RefType, oid: Oid, types: Module, c: Cell, fn: nat)
    requires WasmToPg(t, oid, types) == Some(fn) && Read(fn, oid, c).Got?
    ensures Suits(Read(fn, oid, c).datum, t, oid, c)
  {
  }

  /** The types of MoonBit's Array[Int]. */
  const ARRAY_OF_INT: Module := map[0 := Struct([RefType(NonNullableRef, 1), RefType(I32, 0)]), 1 := Array(RefType(I32, 0))]

  function IntArrayCell(ns: seq<int>, len: int): Cell {
    CRef(StructObj([CRef(ArrayObj(seq(|ns|, i requires 0 <= i < |ns| => CI32(ns[i])))), CI32(len)]))
  }

  lemma IntArrayCellHasType(ns: seq<int>, len: int)
    ensures HasType(IntArrayCell(ns, len), RefType(NonNullableRef, 0), ARRAY_OF_INT)
  {
    var c := IntArrayCell(ns, len);
    assert HasType(c.obj.fields[0], RefType(NonNullableRef, 1), ARRAY_OF_INT);
    assert HasType(c.obj.fields[1], RefType(I32, 0), ARRAY_OF_INT);
  }

  /** One element and a length of two: the types are right, and the second element
      is read. */
  lemma AnArrayIsOverrun()
    ensures var (t, c) := (RefType(NonNullableRef, 0), IntArrayCell([7], 2));
      && t.Ok() && HasType(c, t, ARRAY_OF_INT)
      && WasmToPg(t, INT4ARRAYOID, ARRAY_OF_INT) == Some(7)
      && Read(7, INT4ARRAYOID, c) == Misread
  {
    IntArrayCellHasType([7], 2);
  }

  /** A null externref is let through for text, and followed. */
  lemma ANullIsFollowed()
    ensures var t := RefType(ExternRef, HEAP_EXTERN);
      && t.Ok() && HasType(CRef(Null), t, map[])
      && WasmToPg(t, TEXTOID, map[]) == Some(5)
      && Read(5, TEXTOID, CRef(Null)) == Misread
  {
  }

  /** 32768 arrives as -32768. */
  lemma AnInt2Wraps()
    ensures var (t, c) := (RefType(NonNullableRef, 0), IntArrayCell([0x8000], 1));
      && HasType(c, t, ARRAY_OF_INT)
      && WasmToPg(t, INT2ARRAYOID, ARRAY_OF_INT) == Some(6)
      && Read(6, INT2ARRAYOID, c) == Got(DInt2s([Some(-0x8000)]))
  {
    IntArrayCellHasType([0x8000], 1);
    var c := IntArrayCell([0x8000], 1);
    assert Elements(Buffer(c)[..1], true) == [Some(-0x8000)];
  }

  // ---------------------------------------------------------------- columns

  /** A converter stored a value, or followed the null pointer of a NULL array, or
      got a datum of another kind. */
  datatype Writing = Put(cell: Cell) | Misused

  /** A column of type `oid` holds such a datum or NULL. */
  predicate IsColumn(d: Datum, oid: Oid) {
    d == DNull || IsDatumOf(d, oid)
  }

  /** A MoonBit array; the flags of NULL elements are not looked at. */
  function Boxed(ns: seq<Option<int>>): Cell {
    CRef(StructObj([CRef(ArrayObj(seq(|ns|, i requires 0 <= i < |ns| => CI32(if ns[i].Some? then ns[i].value else 0)))), CI32(|ns|)]))
  }

  /** The table pg_to_wasm_funcs[], by number. */
  function Write(fn: nat, oid: Oid, d: Datum): Writing {
    match fn
    case 0 => if d.DBool? then Put(CI32(if d.b then 1 else 0)) else if d == DNull then Put(CI32(0)) else Misused
    case 1 => if d.DInt4? then Put(CI32(d.n)) else if d == DNull then Put(CI32(0)) else Misused
    case 2 => if d.DInt8? then Put(CI64(d.n)) else if d == DNull then Put(CI64(0)) else Misused
    case 3 => if d.DFloat4? then Put(CF32(d.r)) else if d == DNull then Put(CF32(0.0)) else Misused
    case 4 => if d.DFloat8? then Put(CF64(d.r)) else if d == DNull then Put(CF64(0.0)) else Misused
    case 5 => Put(CRef(DatumObj(oid, d)))
    case 6 => if d.DInt2s? then Put(Boxed(d.ns)) else Misused
    case 7 => if d.DInt4s? then Put(Boxed(d.ns)) else Misused
    case _ => Misused
  }

  lemma BoxedHasType(ns: seq<Option<int>>, t: RefType, types: Module)
    requires IntArray(t, types)
    ensures HasType(Boxed(ns), t, types)
  {
    var fs := types[t.heap].fields;
    var c := Boxed(ns);
    assert HasType(c.obj.fields[0], fs[0], types);
    assert HasType(c.obj.fields[1], fs[1], types);
  }

  /** A column's converter stores a value of the field's type, except that it follows
      the null pointer of a NULL array. */
  lemma ColumnIsWrittenIff(oid: Oid, t: RefType, types: Module, d: Datum, fn: nat)
    requires t.Ok() && IsColumn(d, oid) && PgToWasm(oid, t, types) == Some(fn)
    ensures Write(fn, oid, d) == Misused <==> IsArrayOid(oid) && d == DNull
    ensures Write(fn, oid, d).Put? ==> HasType(Write(fn, oid, d).cell, t, types) && Shows(Write(fn, oid, d).cell, oid, d)
  {
    if d.DInt2s? || d.DInt4s? {
      BoxedHasType(d.ns, t, types);
    }
  }

  /** The cell is what a module sees of the column: its value, or zero for a NULL
      scalar or element. */
  predicate Shows(c: Cell, oid: Oid, d: Datum) {
    match d
    case DBool(b) => c == CI32(if b then 1 else 0)
    case DInt4(n) => c == CI32(n)
    case DInt8(n) => c == CI64(n)
    case DFloat4(r) => c == CF32(r)
    case DFloat8(r) => c == CF64(r)
    case DInt2s(ns) => ShowsArray(c, ns)
    case DInt4s(ns) => ShowsArray(c, ns)
    case DPointer(_) => c == CRef(DatumObj(oid, d))
    case DNull => c in {CI32(0), CI64(0), CF32(0.0), CF64(0.0), CRef(DatumObj(oid, DNull))}
  }

  predicate ShowsArray(c: Cell, ns: seq<Option<int>>) {
    && IsArrayStruct(c) && LengthField(c) == |Buffer(c)| == |ns|
    && forall i :: 0 <= i < |ns| ==> Buffer(c)[i] == CI32(if ns[i].Some? then ns[i].value else 0)
  }

  /** NULL, or an array with a NULL element. */
  predicate HasNull(d: Datum) {
    d == DNull || ((d.DInt2s? || d.DInt4s?) && exists i :: 0 <= i < |d.ns| && d.ns[i].None?)
  }

  lemma BoxedReads(ns: seq<Option<int>>, narrow: bool)
    requires narrow ==> forall i :: 0 <= i < |ns| && ns[i].Some? ==> IsInt16(ns[i].value)
    ensures var cells := Buffer(Boxed(ns));
      && |cells| == |ns| && AllI32(cells)
      && (Elements(cells, narrow) == ns <==> forall i :: 0 <= i < |ns| ==> ns[i].Some?)
  {
    var (cells, all) := (Buffer(Boxed(ns)), Elements(Buffer(Boxed(ns)), narrow));
    forall i | 0 <= i < |ns| ensures ns[i].Some? <==> all[i] == ns[i] {
    }
  }

  /** The argument arrives as the value `d`.  No argument is passed as NULL, so the
      datum of a NULL is not one. */
  predicate Arrives(fn: nat, oid: Oid, c: Cell, d: Datum) {
    Read(fn, oid, c) == Got(d) && d != DNull
  }

  /** A column that is sent back as an argument arrives as it was, exactly if neither
      it nor an element of it was NULL. */
  lemma ColumnComesBackIff(oid: Oid, t: RefType, types: Module, d: Datum, fn: nat)
    requires t.Ok() && IsColumn(d, oid) && PgToWasm(oid, t, types) == Some(fn)
    requires Write(fn, oid, d).Put?
    ensures WasmToPg(t, oid, types) == Some(fn)
    ensures Arrives(fn, oid, Write(fn, oid, d).cell, d) <==> !HasNull(d)
  {
    if d.DInt2s? || d.DInt4s? {
      BoxedReads(d.ns, d.DInt2s?);
      var cells := Buffer(Boxed(d.ns));
      assert cells[..|cells|] == cells;
    }
  }

  /** The argument, selected back, is an array of the same elements. */
  predicate ComesBack(fn: nat, oid: Oid, c: Cell) {
    && Read(fn, oid, c).Got?
    && 0 <= LengthField(c) <= |Buffer(c)|
    && var w := Write(fn, oid, Read(fn, oid, c).datum);
       w.Put? && IsArrayStruct(w.cell) && LengthField(w.cell) == LengthField(c) && Buffer(w.cell) == Buffer(c)[..LengthField(c)]
  }

  /** An int array survives being sent and selected back exactly if its length field
      is one it can have and, as int2[], its elements have 16 bits. */
  lemma ArgumentComesBackIff(t: RefType, oid: Oid, types: Module, c: Cell, fn: nat)
    requires HasType(c, t, types) && IsArrayOid(oid) && WasmToPg(t, oid, types) == Some(fn)
    ensures PgToWasm(oid, t, types) == Some(fn) && IsArrayStruct(c) && AllI32(Buffer(c))
    ensures ComesBack(fn, oid, c) <==>
      && 0 <= LengthField(c) <= |Buffer(c)|
      && LengthField(c) <= MAX_ELEMENTS
      && (oid == INT2ARRAYOID ==> forall i :: 0 <= i < LengthField(c) ==> IsInt16(Buffer(c)[i].i32))
  {
    IntArrayIsReadable(c, t, types);
    if Read(fn, oid, c).Got? {
      SameElements(Buffer(c)[..LengthField(c)], oid == INT2ARRAYOID);
    }
  }

  lemma SameElements(cells: seq<Cell>, narrow: bool)
    requires AllI32(cells)
    ensures Buffer(Boxed(Elements(cells, narrow))) == cells <==> (narrow ==> forall i :: 0 <= i < |cells| ==> IsInt16(cells[i].i32))
  {
    var back := Buffer(Boxed(Elements(cells, narrow)));
    assert |back| == |cells|;
    forall i | 0 <= i < |cells| ensures back[i] == cells[i] <==> (narrow ==> IsInt16(cells[i].i32)) {
      assert back[i] == CI32(if narrow then ToInt16(cells[i].i32) else cells[i].i32);
    }
  }
}
