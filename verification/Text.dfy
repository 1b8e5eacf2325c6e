/**
 The UTF-16 view of a UTF-8 text in adt/text.c, and the reader in
 adt/stringbuilder.c.  The loops run over the bytes as they are stored; masks and
 shifts are written as remainders and quotients.
 */
module Text {
  import opened Base
  import opened Utf

  // ---------------------------------------------------------------- PostgreSQL's view of one character

  /** pg_mblen() for UTF-8: from the first byte alone. */
  function MbLen(b: byte): (n: nat)
    ensures 1 <= n <= 4
  {
    if b < 0x80 then 1
    else if 0xC0 <= b < 0xE0 then 2
    else if 0xE0 <= b < 0xF0 then 3
    else if 0xF0 <= b < 0xF8 then 4
    else 1
  }

  /** The same by the leading bits: 110, 1110 and 11110 announce 2, 3 and 4 bytes. */
  lemma LeadingBits(b: byte)
    ensures b / 32 == 6 <==> MbLen(b) == 2
    ensures b / 16 == 14 <==> MbLen(b) == 3
    ensures b / 8 == 30 <==> MbLen(b) == 4
  {
  }

  /** The first wide character pg_mb2wchar_with_len() makes of exactly these bytes. */
  function WideChar(s: seq<byte>): (c: int)
    requires s != [] && |s| == MbLen(s[0])
    ensures 0 <= c < 0x200000
  {
    var n := |s|;
    var a: int := s[0];
    if n == 1 then a
    else if n == 2 then a % 32 * 64 + Low6(s[1])
    else if n == 3 then a % 16 * 4096 + Low6(s[1]) * 64 + Low6(s[2])
    else a % 8 * 262144 + Low6(s[1]) * 4096 + Low6(s[2]) * 64 + Low6(s[3])
  }

  function Low6(b: byte): (r: int)
    ensures 0 <= r < 64
  {
    var a: int := b;
    a % 64
  }

  lemma EncodedChar(c: Scalar)
    ensures MbLen(Utf8Of(c)[0]) == |Utf8Of(c)|
    ensures WideChar(Utf8Of(c)) == c
  {
    AnyEncodedChar(c);
  }

  lemma AnyEncodedChar(c: int)
    requires 0 <= c <= 0x10FFFF
    ensures MbLen(Utf8Of(c)[0]) == |Utf8Of(c)|
    ensures WideChar(Utf8Of(c)) == c
  {
    if c >= 0x10000 {
      FourBytes(c);
    } else if c >= 0x800 {
      ThreeBytes(c);
    } else if c >= 0x80 {
      TwoBytes(c);
    }
  }

  /** The payload of a continuation byte. */
  lemma Payload(b: byte, x: int)
    requires 0 <= x < 64 && b == 0x80 + x
    ensures Low6(b) == x
  {
  }

  lemma TwoBytes(c: int)
    requires 0x80 <= c < 0x800
    ensures var s := Utf8Of(c); |s| == 2 == MbLen(s[0]) && WideChar(s) == c
  {
    var s := Utf8Of(c);
    var a: int := s[0];
    Payload(s[1], c % 64);
    assert a % 32 == c / 64;
  }

  lemma ThreeBytes(c: int)
    requires 0x800 <= c < 0x10000
    ensures var s := Utf8Of(c); |s| == 3 == MbLen(s[0]) && WideChar(s) == c
  {
    var s := Utf8Of(c);
    var a: int := s[0];
    Payload(s[1], c / 64 % 64);
    Payload(s[2], c % 64);
    assert a % 16 == c / 4096;
    Sextets(c);
  }

  lemma FourBytes(c: int)
    requires 0x10000 <= c <= 0x10FFFF
    ensures var s := Utf8Of(c); |s| == 4 == MbLen(s[0]) && WideChar(s) == c
  {
    var s := Utf8Of(c);
    var a: int := s[0];
    Payload(s[1], c / 4096 % 64);
    Payload(s[2], c / 64 % 64);
    Payload(s[3], c % 64);
    assert a % 8 == c / 262144;
    Sextets(c);
  }

  lemma Sextets(c: int)
    requires 0 <= c <= 0x10FFFF
    ensures c / 4096 * 4096 + c / 64 % 64 * 64 + c % 64 == c
    ensures c / 262144 * 262144 + c / 4096 % 64 * 4096 + c / 64 % 64 * 64 + c % 64 == c
  {
    assert c / 64 / 64 == c / 4096;
    assert c / 4096 / 64 == c / 262144;
  }

  // ---------------------------------------------------------------- length

  function Weight(ch: nat): nat {
    if ch < 4 then 1 else 2
  }

  /** The code units of the complete characters at the front of `d`. */
  function Count(d: seq<byte>): nat {
    if d == [] then 0
    else
      var ch := MbLen(d[0]);
      if ch > |d| then 0 else Weight(ch) + Count(d[ch..])
  }

  method CountCodeUnits(d: seq<byte>) returns (count: nat)
    ensures count == Count(d)
  {
    count := 0;
    var offset := 0;
    while offset < |d|
      invariant 0 <= offset <= |d|
      invariant count + Count(d[offset..]) == Count(d)
    {
      var ch := MbLen(d[offset]);
      assert d[offset..][0] == d[offset];
      if offset + ch > |d| {
        break;
      }
      assert d[offset..][ch..] == d[offset + ch..];
      count := count + (if ch < 4 then 1 else 2);
      offset := offset + ch;
    }
  }

  /** The encoding of `c` stands at the front. */
  lemma Front(c: Scalar, rest: seq<byte>)
    ensures var d := Utf8Of(c) + rest;
      && MbLen(d[0]) == |Utf8Of(c)| <= |d|
      && d[..|Utf8Of(c)|] == Utf8Of(c)
      && d[|Utf8Of(c)|..] == rest
  {
    EncodedChar(c);
  }

  lemma {:induction false} LengthIsUtf16Length(cs: seq<Scalar>)
    ensures Count(Utf8(cs)) == |Utf16(cs)|
  {
    if cs != [] {
      Front(cs[0], Utf8(cs[1..]));
      LengthIsUtf16Length(cs[1..]);
    }
  }

  // ---------------------------------------------------------------- charCodeAt

  /** Code unit `k` of the character with bytes `s`; unsigned 32-bit arithmetic. */
  function UnitOf(s: seq<byte>, k: nat): int
    requires s != [] && |s| == MbLen(s[0])
  {
    var c := WideChar(s);
    if |s| < 4 then c
    else if k == 1 then 0xDC00 + c % 1024
    else 0xD800 + (c - 0x10000) % 0x1_0000_0000 / 1024
  }

  function UnitAt(d: seq<byte>, index: nat): int
    requires index < Count(d)
  {
    var ch := MbLen(d[0]);
    if index < Weight(ch) then UnitOf(d[..ch], index)
    else UnitAt(d[ch..], index - Weight(ch))
  }

  /** Where units are left, a whole character is left, and the next unit lies in it
      or behind it. */
  lemma CharacterAt(d: seq<byte>, offset: nat, k: nat)
    requires offset <= |d| && k < Count(d[offset..])
    ensures offset < |d| && offset + MbLen(d[offset]) <= |d|
    ensures var ch := MbLen(d[offset]);
      && Count(d[offset..]) == Weight(ch) + Count(d[offset + ch..])
      && UnitAt(d[offset..], k) ==
           if k < Weight(ch) then UnitOf(d[offset..offset + ch], k) else UnitAt(d[offset + ch..], k - Weight(ch))
  {
    var rest := d[offset..];
    var ch := MbLen(rest[0]);
    assert rest[ch..] == d[offset + ch..];
    assert rest[..ch] == d[offset..offset + ch];
  }

  /** The loop has no bound of its own: it never leaves `d` because it counts as
      `CountCodeUnits` does. */
  method CharCodeAt(d: seq<byte>, index: int) returns (r: Option<int>)
    ensures var i := if index < 0 then index + Count(d) else index;
      r == if 0 <= i < Count(d) then Some(UnitAt(d, i)) else None
  {
    var size := CountCodeUnits(d);
    var i := if index < 0 then index + size else index;
    if i < 0 || i >= size {
      return None;
    }
    var offset := 0;
    var at := 0;
    assert d[0..] == d;
    while true
      invariant 0 <= offset <= |d|
      invariant 0 <= at <= i
      invariant i - at < Count(d[offset..])
      invariant UnitAt(d[offset..], i - at) == UnitAt(d, i)
      decreases |d| - offset
    {
      CharacterAt(d, offset, i - at);
      ghost var k := i - at;
      var ch := MbLen(d[offset]);
      at := at + (if ch < 4 then 1 else 2);
      if at > i {
        assert k < Weight(ch) && (at - 1 == i <==> k == Weight(ch) - 1);
        var unit := UnitValue(d[offset..offset + ch], at - 1 == i);
        return Some(unit);
      }
      offset := offset + ch;
    }
  }

  /** The code unit that charCodeAt takes from the character it stopped at. */
  method UnitValue(s: seq<byte>, last: bool) returns (unit: int)
    requires s != [] && |s| == MbLen(s[0])
    ensures unit == UnitOf(s, if last then Weight(|s|) - 1 else 0)
  {
    unit := WideChar(s);
    if |s| >= 4 {
      if last {
        unit := 0xDC00 + unit % 1024;
      } else {
        unit := 0xD800 + (unit - 0x10000) % 0x1_0000_0000 / 1024;
      }
    }
  }

  lemma UnitsOfChar(c: Scalar, k: nat)
    requires k < |Utf16Of(c)|
    ensures |Utf8Of(c)| == MbLen(Utf8Of(c)[0])
    ensures UnitOf(Utf8Of(c), k) == Utf16Of(c)[k]
  {
    EncodedChar(c);
    if c >= 0x10000 {
      SurrogateHalves(c);
    }
  }

  lemma SurrogateHalves(c: int)
    requires 0x10000 <= c <= 0x10FFFF
    ensures 0xD800 + (c - 0x10000) % 0x1_0000_0000 / 1024 == 0xD800 + (c - 0x10000) / 1024
    ensures 0xDC00 + c % 1024 == 0xDC00 + (c - 0x10000) % 1024
  {
  }

  lemma {:induction false} CharCodeIsUtf16Unit(cs: seq<Scalar>, index: nat)
    requires index < |Utf16(cs)|
    ensures Count(Utf8(cs)) == |Utf16(cs)|
    ensures UnitAt(Utf8(cs), index) == Utf16(cs)[index]
  {
    LengthIsUtf16Length(cs);
    var (c, w) := (cs[0], |Utf16Of(cs[0])|);
    Front(c, Utf8(cs[1..]));
    if index < w {
      UnitsOfChar(c, index);
    } else {
      LengthIsUtf16Length(cs[1..]);
      CharCodeIsUtf16Unit(cs[1..], index - w);
    }
  }

  // ---------------------------------------------------------------- fromCharCodeArray

  datatype Failure = StartOutOfRange | InvalidUnit | InvalidPair | IncompletePair | UnmatchedLow
  datatype Result<+T> = Ok(value: T) | Err(error: Failure)

  predicate IsHigh(u: int) { 0xD800 <= u <= 0xDBFF }
  predicate IsLow(u: int) { 0xDC00 <= u <= 0xDFFF }

  function FromPair(high: int, low: int): (c: Scalar)
    requires IsHigh(high) && IsLow(low)
    ensures c >= 0x10000
  {
    high % 1024 * 1024 + 0x10000 + low % 1024
  }

  /** Reading code units from left to right, with the first failure. */
  function Characters(us: seq<int>): Result<seq<Scalar>> {
    if us == [] then Ok([])
    else
      match FirstCharacter(us)
      case Err(e) => Err(e)
      case Ok(c) => After([c], Characters(us[(if IsHigh(us[0]) then 2 else 1)..]))
  }

  function Encoded(r: Result<seq<Scalar>>): Result<seq<byte>> {
    match r
    case Ok(cs) => Ok(Utf8(cs))
    case Err(e) => Err(e)
  }

  /** What the characters read so far make of the outcome for the rest. */
  function After(done: seq<Scalar>, rest: Result<seq<Scalar>>): Result<seq<Scalar>> {
    match rest
    case Ok(cs) => Ok(done + cs)
    case Err(e) => Err(e)
  }

  lemma AfterNone(rest: Result<seq<Scalar>>)
    ensures After([], rest) == rest
  {
    if rest.Ok? {
      assert [] + rest.value == rest.value;
    }
  }

  lemma AfterOne(done: seq<Scalar>, c: Scalar, rest: Result<seq<Scalar>>)
    ensures After(done, After([c], rest)) == After(done + [c], rest)
  {
    if rest.Ok? {
      assert done + ([c] + rest.value) == done + [c] + rest.value;
    }
  }

  /** The start index the code uses. */
  function Start(us: seq<int>, start: int): int {
    if start < 0 then start + |us| else start
  }

  /** The length the code uses for its test against 0. */
  function Length(us: seq<int>, start: int, length: int): int {
    var len := if length < 0 then |us| else length;
    if Start(us, start) + len > |us| then |us| - Start(us, start) else len
  }

  function FromArray(us: seq<int>, start: int, length: int): Result<seq<byte>> {
    var s := Start(us, start);
    if s < 0 || s > |us| then Err(StartOutOfRange)
    else if Length(us, start, length) == 0 then Ok([])
    else Encoded(Characters(us[s..]))
  }

  method FromCharCodeArray(us: seq<int>, start: int, length: int) returns (r: Result<seq<byte>>)
    ensures r == FromArray(us, start, length)
  {
    var (size, len, s) := (|us|, length, start);
    if len < 0 {
      len := size;
    }
    if s < 0 {
      s := s + size;
    }
    if s < 0 || s > size {
      return Err(StartOutOfRange);
    }
    if s + len > size {
      len := size - s;
    }
    if len == 0 {
      return Ok([]);
    }
    r := Convert(us, s);
  }

  /** The character that the units at the front encode, or what is wrong there. */
  function FirstCharacter(us: seq<int>): Result<Scalar>
    requires us != []
  {
    var u := us[0];
    if u < 0 || u > 0xFFFF then Err(InvalidUnit)
    else if IsHigh(u) then
      if |us| < 2 then Err(IncompletePair)
      else if IsLow(us[1]) then Ok(FromPair(u, us[1]))
      else Err(InvalidPair)
    else if IsLow(u) then Err(UnmatchedLow)
    else Ok(u)
  }

  /** One turn of the conversion loop. */
  method ConvertOne(us: seq<int>, i: nat) returns (r: Result<Scalar>)
    requires i < |us|
    ensures r == FirstCharacter(us[i..])
  {
    var unit := us[i];
    if unit < 0 || unit > 0xFFFF {
      return Err(InvalidUnit);
    }
    if IsHigh(unit) {
      if i + 1 < |us| {
        if IsLow(us[i + 1]) {
          return Ok(FromPair(unit, us[i + 1]));
        } else {
          return Err(InvalidPair);
        }
      } else {
        return Err(IncompletePair);
      }
    } else if IsLow(unit) {
      return Err(UnmatchedLow);
    }
    return Ok(unit);
  }

  /** What a turn of the loop leaves to be read. */
  lemma OneFurther(us: seq<int>, i: nat, done: seq<Scalar>)
    requires i < |us| && FirstCharacter(us[i..]).Ok?
    ensures var (n, c) := (if IsHigh(us[i]) then 2 else 1, FirstCharacter(us[i..]).value);
      && i + n <= |us|
      && After(done, Characters(us[i..])) == After(done + [c], Characters(us[i + n..]))
      && Utf8(done + [c]) == Utf8(done) + Utf8Of(c)
  {
    var (n, c) := (if IsHigh(us[i]) then 2 else 1, FirstCharacter(us[i..]).value);
    assert us[i..][n..] == us[i + n..];
    AfterOne(done, c, Characters(us[i + n..]));
    Utf8Append(done, c);
  }

  /** The conversion loop, from `start` to the end of the array. */
  method Convert(us: seq<int>, start: nat) returns (r: Result<seq<byte>>)
    requires start <= |us|
    ensures r == Encoded(Characters(us[start..]))
  {
    var buf: seq<byte> := [];
    ghost var done: seq<Scalar> := [];
    var i := start;
    AfterNone(Characters(us[start..]));
    while i < |us|
      invariant start <= i <= |us|
      invariant buf == Utf8(done)
      invariant Characters(us[start..]) == After(done, Characters(us[i..]))
    {
      var ch := ConvertOne(us, i);
      if ch.Err? {
        return Err(ch.error);
      }
      var n := if IsHigh(us[i]) then 2 else 1;
      OneFurther(us, i, done);
      buf := buf + Utf8Of(ch.value);
      done := done + [ch.value];
      i := i + n;
    }
    assert done + [] == done;
    return Ok(buf);
  }

  lemma PairOf(c: Scalar)
    requires c >= 0x10000
    ensures IsHigh(Utf16Of(c)[0]) && IsLow(Utf16Of(c)[1])
    ensures FromPair(Utf16Of(c)[0], Utf16Of(c)[1]) == c
  {
  }

  lemma OfPair(high: int, low: int)
    requires IsHigh(high) && IsLow(low)
    ensures Utf16Of(FromPair(high, low)) == [high, low]
  {
    var (x, y) := (high - 0xD800, low - 0xDC00);
    assert high % 1024 == x && low % 1024 == y;
    Quotient(x, y);
  }

  lemma Quotient(x: int, y: int)
    requires 0 <= x < 1024 && 0 <= y < 1024
    ensures (x * 1024 + y) / 1024 == x && (x * 1024 + y) % 1024 == y
  {
  }

  /** Units that encode characters are read as those characters. */
  lemma {:induction false} CharactersOfUtf16(cs: seq<Scalar>)
    ensures Characters(Utf16(cs)) == Ok(cs)
  {
    if cs != [] {
      CharactersOfUtf16(cs[1..]);
      ReadOne(cs[0], Utf16(cs[1..]), cs[1..]);
      assert cs == [cs[0]] + cs[1..];
    }
  }

  lemma ReadOne(c: Scalar, rest: seq<int>, cs: seq<Scalar>)
    requires Characters(rest) == Ok(cs)
    ensures Characters(Utf16Of(c) + rest) == Ok([c] + cs)
  {
    var us := Utf16Of(c) + rest;
    if c >= 0x10000 {
      PairOf(c);
      assert us[2..] == rest;
    } else {
      assert us[0] == c && us[1..] == rest;
      assert !IsSurrogate(c);
    }
  }

  lemma FirstUnits(us: seq<int>)
    requires us != [] && FirstCharacter(us).Ok?
    ensures var n := if IsHigh(us[0]) then 2 else 1;
      n <= |us| && Utf16Of(FirstCharacter(us).value) == us[..n]
  {
    if IsHigh(us[0]) {
      OfPair(us[0], us[1]);
      assert us[..2] == [us[0], us[1]];
    }
  }

  lemma FirstOfCharacters(us: seq<int>)
    requires us != [] && Characters(us).Ok?
    ensures var n := if IsHigh(us[0]) then 2 else 1;
      && FirstCharacter(us).Ok? && n <= |us| && Characters(us[n..]).Ok?
      && Characters(us).value == [FirstCharacter(us).value] + Characters(us[n..]).value
  {
  }

  lemma Utf16Cons(c: Scalar, cs: seq<Scalar>)
    ensures Utf16([c] + cs) == Utf16Of(c) + Utf16(cs)
  {
    assert ([c] + cs)[1..] == cs;
  }

  /** Units that are read encode what was read: the rest is refused. */
  lemma {:induction false} Utf16OfCharacters(us: seq<int>)
    requires Characters(us).Ok?
    ensures Utf16(Characters(us).value) == us
    decreases |us|
  {
    if us != [] {
      FirstOfCharacters(us);
      FirstUnits(us);
      var n := if IsHigh(us[0]) then 2 else 1;
      Utf16OfCharacters(us[n..]);
      Utf16Cons(FirstCharacter(us).value, Characters(us[n..]).value);
      assert us == us[..n] + us[n..];
    }
  }

  /** Refused exactly if no characters have this encoding. */
  lemma ReadIffWellFormed(us: seq<int>)
    ensures Characters(us).Ok? <==> exists cs :: Utf16(cs) == us
  {
    if Characters(us).Ok? {
      Utf16OfCharacters(us);
    }
    forall cs | Utf16(cs) == us ensures Characters(us).Ok? {
      CharactersOfUtf16(cs);
    }
  }

  // ---------------------------------------------------------------- the two views together

  /** Every charCodeAt of a text, in order. */
  function Units(d: seq<byte>): (us: seq<int>)
    ensures |us| == Count(d)
  {
    seq(Count(d), i requires 0 <= i < Count(d) => UnitAt(d, i))
  }

  lemma UnitsAreUtf16(cs: seq<Scalar>)
    ensures Units(Utf8(cs)) == Utf16(cs)
  {
    LengthIsUtf16Length(cs);
    forall i | 0 <= i < |Utf16(cs)| ensures Units(Utf8(cs))[i] == Utf16(cs)[i] {
      CharCodeIsUtf16Unit(cs, i);
    }
  }

  /** A valid text is rebuilt from its code units. */
  lemma TextRoundTrip(cs: seq<Scalar>)
    ensures FromArray(Units(Utf8(cs)), 0, -1) == Ok(Utf8(cs))
  {
    UnitsAreUtf16(cs);
    CharactersOfUtf16(cs);
    assert Utf16(cs)[0..] == Utf16(cs);
    if cs != [] {
      assert Utf16(cs) != [];
    }
  }

  /** Well-formed code units are read back from the text built from them. */
  lemma UnitsRoundTrip(us: seq<int>, d: seq<byte>)
    requires FromArray(us, 0, -1) == Ok(d)
    ensures Units(d) == us
  {
    if us == [] {
      assert Units([]) == [];
    } else {
      assert us[0..] == us;
      Utf16OfCharacters(us);
      UnitsAreUtf16(Characters(us).value);
    }
  }

  lemma {:induction false} ReadInTwo(a: seq<int>, b: seq<int>)
    requires Characters(a).Ok?
    ensures Characters(a + b) == After(Characters(a).value, Characters(b))
    decreases |a|
  {
    if a == [] {
      assert a + b == b;
      AfterNone(Characters(b));
    } else {
      var n := if IsHigh(a[0]) then 2 else 1;
      ReadInTwo(a[n..], b);
      assert (a + b)[n..] == a[n..] + b;
      var c: Scalar := if IsHigh(a[0]) then FromPair(a[0], a[1]) else a[0];
      assert Characters(a).value == [c] + Characters(a[n..]).value;
      AfterMore(c, Characters(a[n..]).value, Characters(b));
    }
  }

  lemma AfterMore(c: Scalar, done: seq<Scalar>, rest: Result<seq<Scalar>>)
    ensures After([c], After(done, rest)) == After([c] + done, rest)
  {
    if rest.Ok? {
      assert [c] + (done + rest.value) == [c] + done + rest.value;
    }
  }

  lemma {:induction false} Utf8Longer(a: seq<Scalar>, b: seq<Scalar>)
    ensures |Utf8(a + b)| == |Utf8(a)| + |Utf8(b)|
    ensures b != [] ==> |Utf8(b)| > 0
  {
    if a == [] {
      assert a + b == b;
    } else {
      Utf8Longer(a[1..], b);
      assert (a + b)[1..] == a[1..] + b;
    }
  }

  /** A well-formed front and the whole are the same text only if nothing follows. */
  lemma LongerText(front: seq<int>, rest: seq<int>)
    requires Characters(front).Ok?
    ensures Encoded(Characters(front + rest)) == Encoded(Characters(front)) <==> rest == []
  {
    ReadInTwo(front, rest);
    if rest == [] {
      assert front + rest == front;
    } else if Characters(rest).Ok? {
      Utf16OfCharacters(rest);
      Utf8Longer(Characters(front).value, Characters(rest).value);
    }
  }

  /** The property that fails: a well-formed slice is converted by itself.  It holds
      exactly if the slice is empty or reaches the end of the array, because the
      loop never looks at the length. */
  lemma SliceIsConvertedIff(us: seq<int>, start: int, length: int)
    requires 0 <= Start(us, start) <= |us|
    ensures 0 <= Length(us, start, length) <= |us| - Start(us, start)
    ensures var (s, n) := (Start(us, start), Length(us, start, length));
      Characters(us[s..s + n]).Ok? ==>
        (FromArray(us, start, length) == Encoded(Characters(us[s..s + n])) <==> n == 0 || s + n == |us|)
  {
    var (s, n) := (Start(us, start), Length(us, start, length));
    if n == 0 {
      assert us[s..s + n] == [] && Encoded(Characters([])) == Ok([]);
    } else if Characters(us[s..s + n]).Ok? {
      LongerText(us[s..s + n], us[s + n..]);
      assert us[s..] == us[s..s + n] + us[s + n..];
    }
  }

  /** The whole outcome in the caller's terms: a negative start counts from the end,
      a length of 0 gives the empty text, and any other length is not looked at. */
  lemma FromArrayOutcome(us: seq<int>, start: int, length: int)
    ensures FromArray(us, start, length) == Err(StartOutOfRange) <==> start < -|us| || start > |us|
    ensures -|us| <= start < 0 ==> FromArray(us, start, length) == FromArray(us, start + |us|, length)
    ensures 0 <= start <= |us| ==>
      FromArray(us, start, length) == if length == 0 then Ok([]) else Encoded(Characters(us[start..]))
  {
    if -|us| <= start <= |us| {
      NoRange(us[Start(us, start)..]);
    }
  }

  lemma {:induction false} NoRange(us: seq<int>)
    ensures Characters(us) != Err(StartOutOfRange)
    decreases |us|
  {
    if us != [] && FirstCharacter(us).Ok? {
      NoRange(us[(if IsHigh(us[0]) then 2 else 1)..]);
    }
  }

  /** What is wrong with the units at `i`, by their numbers alone. */
  predicate Wrong(us: seq<int>, i: nat, e: Failure)
    requires i < |us|
  {
    match e
    case StartOutOfRange => false
    case InvalidUnit => us[i] < 0 || us[i] >= 0x1_0000
    case UnmatchedLow => 0xDC00 <= us[i] < 0xE000
    case IncompletePair => 0xD800 <= us[i] < 0xDC00 && i == |us| - 1
    case InvalidPair => 0xD800 <= us[i] < 0xDC00 && i < |us| - 1 && !(0xDC00 <= us[i + 1] < 0xE000)
  }

  lemma WrongAtFront(us: seq<int>)
    requires us != [] && FirstCharacter(us).Err?
    ensures Characters(us) == Err(FirstCharacter(us).error) && Wrong(us, 0, FirstCharacter(us).error)
  {
  }

  lemma WrongBehind(us: seq<int>, n: nat, j: nat, e: Failure)
    requires n + j < |us| && Wrong(us[n..], j, e)
    ensures Wrong(us, n + j, e)
  {
  }

  lemma FailsBehind(us: seq<int>)
    requires us != [] && FirstCharacter(us).Ok? && Characters(us).Err?
    ensures var n := if IsHigh(us[0]) then 2 else 1; n <= |us| && Characters(us[n..]) == Characters(us)
  {
    FirstUnits(us);
  }

  lemma TakeInTwo(us: seq<int>, n: nat, i: nat)
    requires n + i <= |us|
    ensures us[..n + i] == us[..n] + us[n..][..i]
  {
  }

  /** Conversion fails at the first units that are wrong, and says what is wrong
      there; those before it are well-formed. */
  lemma {:induction false} FailureSaysWhatIsWrong(us: seq<int>) returns (i: nat, before: seq<Scalar>)
    requires Characters(us).Err?
    ensures i < |us| && Wrong(us, i, Characters(us).error)
    ensures Utf16(before) == us[..i]
    decreases |us|
  {
    if FirstCharacter(us).Err? {
      WrongAtFront(us);
      i, before := 0, [];
    } else {
      FailsBehind(us);
      FirstUnits(us);
      var n := if IsHigh(us[0]) then 2 else 1;
      i, before := FailureSaysWhatIsWrong(us[n..]);
      WrongBehind(us, n, i, Characters(us).error);
      Utf16Cons(FirstCharacter(us).value, before);
      TakeInTwo(us, n, i);
      i, before := n + i, [FirstCharacter(us).value] + before;
    }
  }

  /** Asking for the first of two letters gives both. */
  lemma ASliceIsIgnored()
    ensures FromArray([0x61, 0x62], 0, 1) == Ok([0x61, 0x62])
  {
    var cs: seq<Scalar> := [0x61, 0x62];
    assert cs[1..] == [0x62] && cs[1..][1..] == [];
    assert Utf16(cs) == [0x61, 0x62] && Utf8(cs) == [0x61, 0x62];
    CharactersOfUtf16(cs);
    assert [0x61, 0x62][0..] == [0x61, 0x62];
  }

  // ---------------------------------------------------------------- fromCodePoint

  /** pg_unicode_to_server() refuses numbers outside Unicode, but not surrogates. */
  function FromCodePoint(c: int): Option<seq<byte>> {
    if c == 0 then Some([0])
    else if 0 < c <= 0x10FFFF then Some(Utf8Of(c))
    else None
  }

  /** Every number of Unicode is accepted and can be read back from its text,
      surrogates included; nothing else is accepted. */
  lemma CodePointIsRead(c: int)
    ensures FromCodePoint(c).Some? <==> 0 <= c <= 0x10FFFF
    ensures FromCodePoint(c).Some? ==> ReadAll(FromCodePoint(c).value) == [c]
  {
    if 0 <= c <= 0x10FFFF {
      AnyEncodedChar(c);
      var d := FromCodePoint(c).value;
      assert d == Utf8Of(c);
      assert d[..|d|] == d && d[|d|..] == [];
      assert NextChar(d) == (c, |d|);
      assert ReadAll([]) == [] && [c] + [] == [c];
    }
  }

  lemma TextOfOne(c: Scalar)
    ensures Utf8([c]) == Utf8Of(c)
  {
    assert [c][1..] == [];
    assert Utf8Of(c) + [] == Utf8Of(c);
  }

  /** The text of a code point is valid exactly if it is not a surrogate. */
  lemma CodePointIsValidIff(c: int)
    requires FromCodePoint(c).Some?
    ensures (exists cs :: Utf8(cs) == FromCodePoint(c).value) <==> !IsSurrogate(c)
  {
    var d := FromCodePoint(c).value;
    assert d == Utf8Of(c);
    if IsSurrogate(c) {
      forall cs ensures Utf8(cs) != d {
        SurrogateIsNoText(cs, c);
      }
    } else {
      var cs: seq<Scalar> := [c];
      TextOfOne(c);
      assert Utf8(cs) == d;
    }
  }

  lemma SurrogateIsNoText(cs: seq<Scalar>, c: int)
    requires IsSurrogate(c)
    ensures Utf8(cs) != Utf8Of(c)
  {
    if Utf8(cs) == Utf8Of(c) {
      AnyEncodedChar(c);
      Front(cs[0], Utf8(cs[1..]));
      EncodedChar(cs[0]);
    }
  }

  /** 0xD800 is accepted and encoded as ED A0 80, which is the UTF-8 of nothing. */
  lemma ASurrogateIsAccepted()
    ensures FromCodePoint(0xD800) == Some([0xED, 0xA0, 0x80])
    ensures !exists cs :: Utf8(cs) == [0xED, 0xA0, 0x80]
  {
    CodePointIsValidIff(0xD800);
  }

  // ---------------------------------------------------------------- the reader of stringbuilder.c

  /** The value sb_read_char() returns with `d` left, and how far it moves. */
  function NextChar(d: seq<byte>): (r: (int, nat))
    requires d != []
    ensures 1 <= r.1 <= |d| && r.0 >= 0
  {
    var ch := MbLen(d[0]);
    if ch <= |d| then (WideChar(d[..ch]), ch) else ('?' as int, 1)
  }

  /** Everything the reader returns before the end of input. */
  function ReadAll(d: seq<byte>): seq<int> {
    if d == [] then [] else [NextChar(d).0] + ReadAll(d[NextChar(d).1..])
  }

  class StringReader {
    const data: seq<byte>
    const len: nat
    var cursor: nat

    ghost predicate Valid()
      reads this
    {
      cursor <= len == |data|
    }

    /** sb_read_text(): the cursor starts behind the header, which is left out. */
    constructor (text: seq<byte>)
      ensures Valid() && data == text && cursor == 0
    {
      data, len, cursor := text, |text|, 0;
    }

    method ReadChar() returns (c: int)
      requires Valid()
      modifies this`cursor
      ensures Valid()
      ensures old(cursor) == len ==> c == -1 && cursor == old(cursor)
      ensures old(cursor) < len ==>
        (c, cursor) == (NextChar(data[old(cursor)..]).0, old(cursor) + NextChar(data[old(cursor)..]).1)
    {
      if cursor >= len {
        return -1;
      }
      var ch := MbLen(data[cursor]);
      assert data[cursor..][0] == data[cursor];
      if cursor + ch <= len {
        assert data[cursor..cursor + ch] == data[cursor..][..ch];
        c := WideChar(data[cursor..cursor + ch]);
        cursor := cursor + ch;
      } else {
        c := '?' as int;
        cursor := cursor + 1;
      }
    }
  }

  /** What is read from `at` on begins with the character there. */
  lemma ReadFrom(d: seq<byte>, at: nat)
    requires at < |d|
    ensures var (c, n) := NextChar(d[at..]); at + n <= |d| && ReadAll(d[at..]) == [c] + ReadAll(d[at + n..])
  {
    assert d[at..][NextChar(d[at..]).1..] == d[at + NextChar(d[at..]).1..];
  }

  /** `cs` is what was read before the cursor, and `c` the last result. */
  ghost predicate ReadSoFar(d: seq<byte>, cursor: nat, cs: seq<int>, c: int, all: seq<int>) {
    && cursor <= |d|
    && if c == -1 then cursor == |d| && cs == all else cs + [c] + ReadAll(d[cursor..]) == all
  }

  lemma OneRead(d: seq<byte>, cursor: nat, cs: seq<int>, c: int, all: seq<int>)
    requires c != -1 && ReadSoFar(d, cursor, cs, c, all)
    ensures cursor == |d| ==> ReadSoFar(d, cursor, cs + [c], -1, all)
    ensures cursor < |d| ==>
      var (next, n) := NextChar(d[cursor..]); ReadSoFar(d, cursor + n, cs + [c], next, all)
  {
    if cursor < |d| {
      var (next, n) := NextChar(d[cursor..]);
      ReadFrom(d, cursor);
      Associative(cs + [c], [next], ReadAll(d[cursor + n..]));
    } else {
      assert d[cursor..] == [] && cs + [c] + [] == cs + [c];
    }
  }

  /** The read before the loop of such a caller, and each one in it. */
  method ReadFirst(reader: StringReader, ghost all: seq<int>) returns (c: int)
    requires reader.Valid() && all == ReadAll(reader.data[reader.cursor..])
    modifies reader`cursor
    ensures reader.Valid() && ReadSoFar(reader.data, reader.cursor, [], c, all)
  {
    if reader.cursor < reader.len {
      ReadFrom(reader.data, reader.cursor);
    }
    c := reader.ReadChar();
  }

  method ReadNext(reader: StringReader, ghost cs: seq<int>, ghost last: int, ghost all: seq<int>) returns (c: int)
    requires reader.Valid() && last != -1 && ReadSoFar(reader.data, reader.cursor, cs, last, all)
    modifies reader`cursor
    ensures reader.Valid() && ReadSoFar(reader.data, reader.cursor, cs + [last], c, all)
    ensures old(reader.cursor) <= reader.cursor && (c != -1 ==> old(reader.cursor) < reader.cursor)
  {
    OneRead(reader.data, reader.cursor, cs, last, all);
    c := reader.ReadChar();
  }

  /** A caller that reads until the end of input gets `ReadAll`, on any bytes. */
  method ReadToEnd(reader: StringReader) returns (cs: seq<int>)
    requires reader.Valid()
    modifies reader`cursor
    ensures reader.Valid() && reader.cursor == reader.len
    ensures cs == ReadAll(reader.data[old(reader.cursor)..])
  {
    cs := [];
    ghost var all := ReadAll(reader.data[reader.cursor..]);
    var c := ReadFirst(reader, all);
    while c != -1
      invariant reader.Valid() && ReadSoFar(reader.data, reader.cursor, cs, c, all)
      decreases reader.len - reader.cursor, c != -1
    {
      var next := ReadNext(reader, cs, c, all);
      cs := cs + [c];
      c := next;
    }
  }

  /** Reading a valid text gives its characters. */
  lemma {:induction false} ReadingDecodes(cs: seq<Scalar>)
    ensures ReadAll(Utf8(cs)) == cs
  {
    if cs != [] {
      var d := Utf8(cs);
      Front(cs[0], Utf8(cs[1..]));
      EncodedChar(cs[0]);
      ReadingDecodes(cs[1..]);
    }
  }

  // ---------------------------------------------------------------- text that is not UTF-8

  /** Bytes that begin no character are characters of their own. */
  lemma {:induction false} StrayBytes(d: seq<byte>)
    requires forall i :: 0 <= i < |d| ==> 0x80 <= d[i] < 0xC0 || d[i] >= 0xF8
    ensures Count(d) == |d| && Units(d) == d && ReadAll(d) == d
  {
    if d != [] {
      StrayBytes(d[1..]);
      assert d[..1] == [d[0]];
      forall i | 0 <= i < |d| ensures UnitAt(d, i) == d[i] {
        if i > 0 {
          assert UnitAt(d[1..], i - 1) == Units(d[1..])[i - 1] == d[1..][i - 1];
        }
      }
      assert [d[0]] + d[1..] == d;
    }
  }

  /** With four bytes for less than 0x10000, the unsigned subtraction wraps, and the
      first unit is no 16-bit number; all other units are, whatever the bytes. */
  lemma UnitIs16BitsIff(s: seq<byte>, k: nat)
    requires s != [] && |s| == MbLen(s[0]) && k < Weight(|s|)
    ensures 0 <= UnitOf(s, k) < 0x1_0000 <==> |s| < 4 || k == 1 || WideChar(s) >= 0x1_0000
    ensures |s| == 4 && k == 0 && WideChar(s) < 0x1_0000 ==> UnitOf(s, k) == 0x40D7C0 + WideChar(s) / 1024
  {
    if |s| == 3 {
      assert WideChar(s) == s[0] as int % 16 * 4096 + Low6(s[1]) * 64 + Low6(s[2]);
    } else if |s| == 4 && k == 0 && WideChar(s) < 0x1_0000 {
      Wraps(WideChar(s));
    }
  }

  lemma Wraps(c: int)
    requires 0 <= c < 0x1_0000
    ensures (c - 0x10000) % 0x1_0000_0000 / 1024 == 0x3F_FFC0 + c / 1024
  {
    assert (c - 0x10000) % 0x1_0000_0000 == c + 0xFFFF_0000;
  }

  /** A character in front of anything. */
  lemma UnitsInFront(c: Scalar, rest: seq<byte>)
    ensures Units(Utf8Of(c) + rest) == Utf16Of(c) + Units(rest)
  {
    var (d, w) := (Utf8Of(c) + rest, |Utf16Of(c)|);
    Front(c, rest);
    assert Count(d) == w + Count(rest);
    forall i | 0 <= i < Count(d) ensures UnitAt(d, i) == (Utf16Of(c) + Units(rest))[i] {
      if i < w {
        UnitsOfChar(c, i);
      } else {
        assert UnitAt(d, i) == UnitAt(rest, i - w);
      }
    }
  }

  lemma ReadsInFront(c: Scalar, rest: seq<byte>)
    ensures ReadAll(Utf8Of(c) + rest) == [c as int] + ReadAll(rest)
  {
    EncodedChar(c);
    Front(c, rest);
    assert NextChar(Utf8Of(c) + rest) == (c as int, |Utf8Of(c)|);
  }

  lemma Associative<T>(a: seq<T>, b: seq<T>, c: seq<T>)
    ensures a + (b + c) == a + b + c
  {
  }

  /** Valid text in front of anything. */
  lemma {:induction false} ValidUnitsInFront(cs: seq<Scalar>, rest: seq<byte>)
    ensures Units(Utf8(cs) + rest) == Utf16(cs) + Units(rest)
  {
    if cs == [] {
      assert Utf8(cs) + rest == rest && Utf16(cs) + Units(rest) == Units(rest);
    } else {
      var (c, later) := (cs[0], cs[1..]);
      ValidUnitsInFront(later, rest);
      UnitsInFront(c, Utf8(later) + rest);
      Associative(Utf8Of(c), Utf8(later), rest);
      Associative(Utf16Of(c), Utf16(later), Units(rest));
    }
  }

  lemma {:induction false} ValidReadsInFront(cs: seq<Scalar>, rest: seq<byte>)
    ensures ReadAll(Utf8(cs) + rest) == cs + ReadAll(rest)
  {
    if cs == [] {
      assert Utf8(cs) + rest == rest && cs + ReadAll(rest) == ReadAll(rest);
    } else {
      var (c, later) := (cs[0], cs[1..]);
      ValidReadsInFront(later, rest);
      ReadsInFront(c, Utf8(later) + rest);
      Associative(Utf8Of(c), Utf8(later), rest);
      OneMore(c, later, ReadAll(rest));
      assert cs == [c] + later;
    }
  }

  lemma OneMore(c: Scalar, later: seq<Scalar>, read: seq<int>)
    ensures [c as int] + (later + read) == ([c] + later) + read
  {
  }

  /** A text that breaks off inside a character: what is there of it counts for
      nothing and is not a unit, and the reader returns a question mark and goes on
      one byte later. */
  lemma TruncatedText(cs: seq<Scalar>, c: Scalar, n: nat)
    requires 0 < n < |Utf8Of(c)|
    ensures Units(Utf8(cs) + Utf8Of(c)[..n]) == Utf16(cs)
    ensures ReadAll(Utf8(cs) + Utf8Of(c)[..n]) == cs + (['?' as int] + ReadAll(Utf8Of(c)[1..n]))
  {
    var t := Utf8Of(c)[..n];
    EncodedChar(c);
    ValidUnitsInFront(cs, t);
    ValidReadsInFront(cs, t);
    assert Units(t) == [] && Utf16(cs) + [] == Utf16(cs);
    assert t[1..] == Utf8Of(c)[1..n];
  }
}
