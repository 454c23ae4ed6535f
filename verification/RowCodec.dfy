/**
 * A table row packed into bytes and back (Table.cc). Each field is a null flag
 * and, unless the flag is set, its value.
 */
module RowCodec {
  import opened Bytes
  import opened Options

  datatype Type = INT | UINT | BOOL | FLOAT | CHAR | CHARX | VARCHAR
  datatype Field = Field(ty: Type, length: nat)

  /** A long double is its 16 bytes; `str` of a null is what its string happens to hold. */
  datatype Value =
    | Null(str: seq<Byte>)
    | Int(i: int)
    | Uint(u: nat)
    | Bool(b: bool)
    | Float(raw: seq<Byte>)
    | Char(c: Byte)
    | Text(s: seq<Byte>)

  const SPACE: Byte := 32

  /** What the type's C++ member can hold. */
  predicate Fits(f: Field, v: Value) {
    match v
    case Null(s) => |s| < HALF64
    case Int(i) => f.ty.INT? && IsInt64(i)
    case Uint(u) => f.ty.UINT? && u < WORD64
    case Bool(_) => f.ty.BOOL?
    case Float(raw) => f.ty.FLOAT? && |raw| == 16
    case Char(_) => f.ty.CHAR?
    case Text(s) => (f.ty.CHARX? || f.ty.VARCHAR?) && |s| < HALF64
  }

  predicate AllFit(fs: seq<Field>, vs: seq<Value>) {
    |fs| == |vs| && forall i :: 0 <= i < |fs| ==> Fits(fs[i], vs[i])
  }

  // ----- sizes -----

  predicate HasVarchar(fs: seq<Field>) {
    exists f :: f in fs && f.ty.VARCHAR?
  }

  /** What addfield adds to the row size: a FLOAT falls through to the next case and takes a byte more. */
  function FixedRoom(f: Field): nat {
    1 + match f.ty
        case INT => 8
        case UINT => 8
        case BOOL => 1
        case FLOAT => 17
        case CHAR => 1
        case CHARX => f.length
        case VARCHAR => 0
  }

  /** What makerow reserves when it must compute the size, for nulls too. */
  function ValueRoom(f: Field, v: Value): nat {
    1 + match f.ty
        case INT => 8
        case UINT => 8
        case BOOL => 1
        case FLOAT => 16
        case CHAR => 1
        case CHARX => f.length
        case VARCHAR => 8 + |StrOf(v)|
  }

  function StrOf(v: Value): seq<Byte> {
    match v
    case Null(s) => s
    case Text(s) => s
    case _ => []
  }

  function Room(fixed: bool, f: Field, v: Value): nat {
    if fixed then FixedRoom(f) else ValueRoom(f, v)
  }

  function FixedRooms(fs: seq<Field>): nat {
    if fs == [] then 0 else FixedRooms(fs[..|fs| - 1]) + FixedRoom(fs[|fs| - 1])
  }

  function Rooms(fixed: bool, fs: seq<Field>, vs: seq<Value>): nat
    requires |fs| == |vs|
  {
    if fs == [] then 0
    else Rooms(fixed, fs[..|fs| - 1], vs[..|fs| - 1]) + Room(fixed, fs[|fs| - 1], vs[|fs| - 1])
  }

  // ----- the packed form -----

  function Spaces(n: nat): (s: seq<Byte>)
    ensures |s| == n
  {
    seq(n, _ => SPACE)
  }

  function Zeros(n: nat): (s: seq<Byte>)
    ensures |s| == n
  {
    seq(n, _ => 0)
  }

  /** A fixed-length string is filled up with spaces, in the caller's value, and cut when it is stored. */
  function Padded(f: Field, v: Value): Value {
    if f.ty.CHARX? && v.Text? && |v.s| < f.length then Text(v.s + Spaces(f.length - |v.s|)) else v
  }

  function Cut(f: Field, v: Value): Value {
    match Padded(f, v)
    case Null(_) => Null([])
    case Text(s) => if f.ty.CHARX? then Text(s[..f.length]) else Text(s)
    case w => w
  }

  function Payload(f: Field, v: Value): seq<Byte> {
    match Cut(f, v)
    case Null(_) => []
    case Int(i) => Le(Wrapped(i), 8)
    case Uint(u) => Le(u, 8)
    case Bool(b) => [if b then 1 else 0]
    case Float(raw) => raw
    case Char(c) => [c]
    case Text(s) => if f.ty.CHARX? then s else Le(|s|, 8) + s
  }

  function Packed(f: Field, v: Value): seq<Byte> {
    [if v.Null? then 1 else 0] + Payload(f, v)
  }

  function PackedAll(fs: seq<Field>, vs: seq<Value>): seq<Byte>
    requires |fs| == |vs|
  {
    if fs == [] then []
    else PackedAll(fs[..|fs| - 1], vs[..|fs| - 1]) + Packed(fs[|fs| - 1], vs[|fs| - 1])
  }

  lemma PackedFits(fixed: bool, f: Field, v: Value)
    requires Fits(f, v) && (fixed ==> !f.ty.VARCHAR?)
    ensures 1 <= |Packed(f, v)| <= Room(fixed, f, v)
  {
  }

  lemma {:induction false} PackedAllFits(fixed: bool, fs: seq<Field>, vs: seq<Value>)
    requires AllFit(fs, vs) && (fixed ==> !HasVarchar(fs))
    ensures |PackedAll(fs, vs)| <= Rooms(fixed, fs, vs)
    decreases |fs|
  {
    if fs != [] {
      var n := |fs| - 1;
      assert fs[n] in fs && forall f :: f in fs[..n] ==> f in fs;
      PackedFits(fixed, fs[n], vs[n]);
      PackedAllFits(fixed, fs[..n], vs[..n]);
    }
  }

  // ----- reading it back -----

  function IntAt(row: seq<Byte>, pos: nat): int
    requires pos + 8 <= |row|
  {
    Signed(FromLe(row[pos..pos + 8]))
  }

  function Clip(row: seq<Byte>, pos: nat, n: nat): (s: seq<Byte>)
    requires pos <= |row|
    ensures |s| <= n
  {
    if n <= |row| - pos then row[pos..pos + n] else row[pos..]
  }

  datatype Read = Read(v: Value, pos: nat)

  /** Whether the bytes that will be copied unchecked are there. */
  predicate Readable(f: Field, row: seq<Byte>, pos: nat) {
    match f.ty
    case INT => pos + 8 <= |row|
    case UINT => pos + 8 <= |row|
    case FLOAT => pos + 16 <= |row|
    case VARCHAR => pos + 8 <= |row| && IntAt(row, pos) >= 0
    case _ => pos < |row|
  }

  function ReadValue(f: Field, row: seq<Byte>, pos: nat): Read
    requires Readable(f, row, pos) && pos <= |row|
  {
    match f.ty
    case INT => Read(Int(IntAt(row, pos)), pos + 8)
    case UINT => Read(Uint(FromLe(row[pos..pos + 8])), pos + 8)
    case BOOL => Read(Bool(row[pos] != 0), pos + 1)
    case FLOAT => Read(Float(row[pos..pos + 16]), pos + 16)
    case CHAR => Read(Char(row[pos]), pos + 1)
    case CHARX =>
      var s := Clip(row, pos, f.length);
      Read(Text(s + Zeros(f.length - |s|)), pos + f.length)
    case VARCHAR =>
      var n := IntAt(row, pos);
      Read(Text(Clip(row, pos + 8, n)), pos + 8 + n)
  }

  /** A null flag is not looked at in the last byte: there must be something behind it. */
  predicate FieldReadable(f: Field, row: seq<Byte>, pos: nat) {
    pos < |row| - 1 && row[pos] == 0 ==> Readable(f, row, pos + 1)
  }

  function ReadField(f: Field, row: seq<Byte>, pos: nat): Option<Read>
    requires FieldReadable(f, row, pos)
  {
    if pos >= |row| - 1 then None
    else Some(if row[pos] != 0 then Read(Null([]), pos + 1) else ReadValue(f, row, pos + 1))
  }

  predicate CanRead(fs: seq<Field>, row: seq<Byte>, n: nat, pos: nat)
    requires n <= |fs|
    decreases |fs| - n
  {
    n < |fs| ==>
      FieldReadable(fs[n], row, pos) &&
      match ReadField(fs[n], row, pos)
      case None => true
      case Some(r) => CanRead(fs, row, n + 1, r.pos)
  }

  function Unpacked(fs: seq<Field>, row: seq<Byte>, n: nat, pos: nat): Option<seq<Value>>
    requires n <= |fs| && CanRead(fs, row, n, pos)
    decreases |fs| - n
  {
    if n == |fs| then Some([])
    else
      match ReadField(fs[n], row, pos)
      case None => None
      case Some(r) => Prefixed(r.v, Unpacked(fs, row, n + 1, r.pos))
  }

  function Prefixed(v: Value, rest: Option<seq<Value>>): Option<seq<Value>> {
    match rest
    case None => None
    case Some(vs) => Some([v] + vs)
  }

  // ----- the round trip -----

  lemma IntRoundTrip(i: int, row: seq<Byte>, pos: nat)
    requires IsInt64(i)
    requires pos + 8 <= |row| && row[pos..pos + 8] == Le(Wrapped(i), 8)
    ensures IntAt(row, pos) == i
  {
    SignedRoundTrip(i);
  }

  /** A value that was packed at `pos` is read back, filled up or cut, and the next one comes right behind it. */
  lemma ReadPacked(f: Field, v: Value, row: seq<Byte>, pos: nat)
    requires Fits(f, v) && !v.Null?
    requires pos + |Payload(f, v)| <= |row| && row[pos..pos + |Payload(f, v)|] == Payload(f, v)
    requires pos < |row|
    ensures Readable(f, row, pos)
    ensures ReadValue(f, row, pos) == Read(Cut(f, v), pos + |Payload(f, v)|)
  {
    var p := Payload(f, v);
    match f.ty
    case INT => IntRoundTrip(v.i, row, pos);
    case UINT =>
      Pow256Of8();
      LeRoundTrip(v.u, 8);
    case BOOL => assert row[pos] == p[0];
    case FLOAT =>
    case CHAR => assert row[pos] == p[0];
    case CHARX => assert Cut(f, v).s + Zeros(0) == Cut(f, v).s;
    case VARCHAR =>
      assert row[pos..pos + 8] == p[..8] && row[pos + 8..pos + 8 + |v.s|] == p[8..];
      IntRoundTrip(|v.s|, row, pos);
  }

  /** What comes back from the `n`-th field on: strings filled up or cut, nulls without their text. */
  function CutFrom(fs: seq<Field>, vs: seq<Value>, n: nat): (r: seq<Value>)
    requires |fs| == |vs| && n <= |fs|
    ensures |r| == |fs| - n
    decreases |fs| - n
  {
    if n == |fs| then [] else [Cut(fs[n], vs[n])] + CutFrom(fs, vs, n + 1)
  }

  /** The last field is a string of length zero and the row has not a byte to spare before it. */
  predicate NoRoomForLastFlag(fs: seq<Field>, vs: seq<Value>, size: nat)
    requires |fs| == |vs|
  {
    && fs != [] && fs[|fs| - 1].ty.CHARX? && fs[|fs| - 1].length == 0
    && |PackedAll(fs[..|fs| - 1], vs[..|fs| - 1])| + 1 >= size
  }

  /** The field that `a` ends before, in a row that begins with `a` and that field. */
  lemma FieldReads(f: Field, v: Value, a: seq<Byte>, row: seq<Byte>)
    requires Fits(f, v) && a + Packed(f, v) <= row && |a| < |row| - 1
    ensures FieldReadable(f, row, |a|)
    ensures ReadField(f, row, |a|) == Some(Read(Cut(f, v), |a + Packed(f, v)|))
  {
    var p := Packed(f, v);
    PackedSlice(a, p, row);
    assert row[|a|] == p[0];
    if !v.Null? {
      assert row[|a| + 1..|a| + |p|] == p[1..] == Payload(f, v);
      ReadPacked(f, v, row, |a| + 1);
    }
  }

  /** How far the packed fields before the `k`-th reach. */
  function Reach(fs: seq<Field>, vs: seq<Value>, k: nat): nat
    requires |fs| == |vs| && k <= |fs|
  {
    |PackedAll(fs[..k], vs[..k])|
  }

  lemma NthReads(fs: seq<Field>, vs: seq<Value>, row: seq<Byte>, n: nat)
    requires AllFit(fs, vs) && n < |fs| && PackedAll(fs, vs) <= row && Reach(fs, vs, n) < |row| - 1
    ensures FieldReadable(fs[n], row, Reach(fs, vs, n))
    ensures ReadField(fs[n], row, Reach(fs, vs, n)) == Some(Read(Cut(fs[n], vs[n]), Reach(fs, vs, n + 1)))
  {
    PackedStep(fs, vs, n);
    PackedPrefix(fs, vs, n + 1);
    FieldReads(fs[n], vs[n], PackedAll(fs[..n], vs[..n]), row);
  }

  lemma UnpackStep(fs: seq<Field>, row: seq<Byte>, n: nat, pos: nat, r: Read)
    requires n < |fs| && FieldReadable(fs[n], row, pos) && ReadField(fs[n], row, pos) == Some(r)
    requires CanRead(fs, row, n + 1, r.pos)
    ensures CanRead(fs, row, n, pos) && Unpacked(fs, row, n, pos) == Prefixed(r.v, Unpacked(fs, row, n + 1, r.pos))
  {
  }

  /** From any field on, if every null flag up to there has something behind it. */
  lemma {:induction false} UnpackFrom(fs: seq<Field>, vs: seq<Value>, row: seq<Byte>, n: nat)
    requires AllFit(fs, vs) && n <= |fs| && PackedAll(fs, vs) <= row
    requires forall k :: n <= k < |fs| ==> Reach(fs, vs, k) < |row| - 1
    ensures CanRead(fs, row, n, Reach(fs, vs, n))
    ensures Unpacked(fs, row, n, Reach(fs, vs, n)) == Some(CutFrom(fs, vs, n))
    decreases |fs| - n
  {
    if n < |fs| {
      NthReads(fs, vs, row, n);
      UnpackFrom(fs, vs, row, n + 1);
      UnpackStep(fs, row, n, Reach(fs, vs, n), Read(Cut(fs[n], vs[n]), Reach(fs, vs, n + 1)));
    }
  }

  lemma PackedSlice(a: seq<Byte>, p: seq<Byte>, row: seq<Byte>)
    requires a + p <= row
    ensures |a| + |p| <= |row| && row[|a|..|a| + |p|] == p
  {
    assert row[..|a + p|] == a + p;
  }

  lemma PackedStep(fs: seq<Field>, vs: seq<Value>, n: nat)
    requires |fs| == |vs| && n < |fs|
    ensures PackedAll(fs[..n + 1], vs[..n + 1]) == PackedAll(fs[..n], vs[..n]) + Packed(fs[n], vs[n])
  {
    assert fs[..n + 1][..n] == fs[..n] && vs[..n + 1][..n] == vs[..n];
  }

  lemma {:induction false} PackedPrefix(fs: seq<Field>, vs: seq<Value>, n: nat)
    requires |fs| == |vs| && n <= |fs|
    ensures PackedAll(fs[..n], vs[..n]) <= PackedAll(fs, vs)
    decreases |fs| - n
  {
    if n == |fs| {
      assert fs[..n] == fs && vs[..n] == vs;
    } else {
      PackedStep(fs, vs, n);
      PackedPrefix(fs, vs, n + 1);
    }
  }

  // ----- makerow's size -----

  function RowSize(fs: seq<Field>, vs: seq<Value>): nat
    requires |fs| == |vs|
  {
    Rooms(!HasVarchar(fs), fs, vs)
  }

  function Row(fs: seq<Field>, vs: seq<Value>): (row: seq<Byte>)
    requires AllFit(fs, vs)
    ensures |row| == RowSize(fs, vs)
  {
    PackedAllFits(!HasVarchar(fs), fs, vs);
    PackedAll(fs, vs) + Zeros(RowSize(fs, vs) - |PackedAll(fs, vs)|)
  }

  /** What was packed before a field leaves that field its room, and every later field its own. */
  lemma {:induction false} RoomLeft(fs: seq<Field>, vs: seq<Value>, k: nat)
    requires AllFit(fs, vs) && k < |fs|
    ensures Reach(fs, vs, k) + Room(!HasVarchar(fs), fs[k], vs[k]) + (|fs| - k - 1) <= RowSize(fs, vs)
  {
    var fixed := !HasVarchar(fs);
    assert forall f :: f in fs[..k] ==> f in fs;
    PackedAllFits(fixed, fs[..k], vs[..k]);
    RoomsStep(fixed, fs, vs, k);
    RoomsGrow(fixed, fs, vs, k + 1);
  }

  lemma {:induction false} FixedIsRooms(fs: seq<Field>, vs: seq<Value>)
    requires |fs| == |vs|
    ensures FixedRooms(fs) == Rooms(true, fs, vs)
  {
    if fs != [] {
      FixedIsRooms(fs[..|fs| - 1], vs[..|fs| - 1]);
    }
  }

  lemma RoomsStep(fixed: bool, fs: seq<Field>, vs: seq<Value>, k: nat)
    requires |fs| == |vs| && k < |fs|
    ensures Rooms(fixed, fs[..k + 1], vs[..k + 1]) == Rooms(fixed, fs[..k], vs[..k]) + Room(fixed, fs[k], vs[k])
  {
    assert fs[..k + 1][..k] == fs[..k] && vs[..k + 1][..k] == vs[..k];
  }

  lemma {:induction false} RoomsGrow(fixed: bool, fs: seq<Field>, vs: seq<Value>, k: nat)
    requires |fs| == |vs| && k <= |fs|
    ensures Rooms(fixed, fs[..k], vs[..k]) + (|fs| - k) <= Rooms(fixed, fs, vs)
    decreases |fs| - k
  {
    if k == |fs| {
      assert fs[..k] == fs && vs[..k] == vs;
    } else {
      RoomsStep(fixed, fs, vs, k);
      RoomsGrow(fixed, fs, vs, k + 1);
    }
  }

  /**
   * A packed row unpacks to its values, with strings filled up or cut and nulls
   * kept, unless its last field has length zero and nothing before it left a
   * byte to spare; then unpacking fails.
   */
  lemma RowRoundTrip(fs: seq<Field>, vs: seq<Value>)
    requires AllFit(fs, vs)
    ensures CanRead(fs, Row(fs, vs), 0, 0)
    ensures Unpacked(fs, Row(fs, vs), 0, 0) ==
              if NoRoomForLastFlag(fs, vs, RowSize(fs, vs)) then None else Some(CutFrom(fs, vs, 0))
  {
    var row := Row(fs, vs);
    assert Reach(fs, vs, 0) == 0;
    FlagsHaveRoom(fs, vs);
    if NoRoomForLastFlag(fs, vs, RowSize(fs, vs)) {
      FailsAtLast(fs, vs, row, 0);
    } else {
      UnpackFrom(fs, vs, row, 0);
    }
  }

  lemma FlagsHaveRoom(fs: seq<Field>, vs: seq<Value>)
    requires AllFit(fs, vs)
    ensures forall k :: 0 <= k < |fs| - 1 ==> Reach(fs, vs, k) < RowSize(fs, vs) - 1
    ensures fs != [] ==> (Reach(fs, vs, |fs| - 1) >= RowSize(fs, vs) - 1 <==> NoRoomForLastFlag(fs, vs, RowSize(fs, vs)))
  {
    forall k | 0 <= k < |fs| - 1 ensures Reach(fs, vs, k) < RowSize(fs, vs) - 1 {
      RoomLeft(fs, vs, k);
    }
    if fs != [] {
      RoomLeft(fs, vs, |fs| - 1);
    }
  }

  lemma {:induction false} FailsAtLast(fs: seq<Field>, vs: seq<Value>, row: seq<Byte>, k: nat)
    requires AllFit(fs, vs) && k < |fs| && PackedAll(fs, vs) <= row
    requires forall j :: 0 <= j < |fs| - 1 ==> Reach(fs, vs, j) < |row| - 1
    requires Reach(fs, vs, |fs| - 1) >= |row| - 1
    ensures CanRead(fs, row, k, Reach(fs, vs, k)) && Unpacked(fs, row, k, Reach(fs, vs, k)) == None
    decreases |fs| - k
  {
    if k < |fs| - 1 {
      NthReads(fs, vs, row, k);
      FailsAtLast(fs, vs, row, k + 1);
      UnpackStep(fs, row, k, Reach(fs, vs, k), Read(Cut(fs[k], vs[k]), Reach(fs, vs, k + 1)));
    }
  }

  /** Strings of length at least one always survive. */
  lemma NonEmptyStringsRoundTrip(fs: seq<Field>, vs: seq<Value>)
    requires AllFit(fs, vs) && forall f :: f in fs && f.ty.CHARX? ==> f.length >= 1
    ensures CanRead(fs, Row(fs, vs), 0, 0) && Unpacked(fs, Row(fs, vs), 0, 0) == Some(CutFrom(fs, vs, 0))
  {
    RowRoundTrip(fs, vs);
  }

  // ----- what comes back, byte by byte -----

  /** What a value is stored as: fixed-length strings as so many bytes, cut or filled up with spaces; all else as it is. */
  predicate StoredAs(f: Field, v: Value, w: Value) {
    match v
    case Null(_) => w.Null?
    case Text(s) =>
      && w.Text?
      && if f.ty.CHARX? then
           && |w.s| == f.length
           && forall i :: 0 <= i < f.length ==> w.s[i] == if i < |s| then s[i] else 32
         else w.s == s
    case _ => w == v
  }

  lemma CutIsStored(f: Field, v: Value)
    requires Fits(f, v)
    ensures StoredAs(f, v, Cut(f, v))
    ensures StoredAs(f, v, Padded(f, v)) || (v.Text? && f.ty.CHARX? && |v.s| > f.length && Padded(f, v) == v)
  {
  }

  lemma {:induction false} CutFromAt(fs: seq<Field>, vs: seq<Value>, n: nat, i: nat)
    requires |fs| == |vs| && n <= i < |fs|
    ensures CutFrom(fs, vs, n)[i - n] == Cut(fs[i], vs[i])
    decreases i - n
  {
    if n < i {
      CutFromAt(fs, vs, n + 1, i);
    }
  }

  /** Each value of a row that can be read back at all is the one stored. */
  lemma ValueComesBack(fs: seq<Field>, vs: seq<Value>, i: nat)
    requires AllFit(fs, vs) && i < |fs| && !NoRoomForLastFlag(fs, vs, RowSize(fs, vs))
    ensures CanRead(fs, Row(fs, vs), 0, 0) && Unpacked(fs, Row(fs, vs), 0, 0).Some?
    ensures |Unpacked(fs, Row(fs, vs), 0, 0).value| == |fs|
    ensures StoredAs(fs[i], vs[i], Unpacked(fs, Row(fs, vs), 0, 0).value[i])
  {
    RowRoundTrip(fs, vs);
    CutFromAt(fs, vs, 0, i);
    CutIsStored(fs[i], vs[i]);
  }

  /** What is reserved for a value is what it takes, but for a FLOAT in a row of fixed size, which gets a byte more. */
  lemma RoomIsExact(fixed: bool, f: Field, v: Value)
    requires Fits(f, v) && !v.Null? && (fixed ==> !f.ty.VARCHAR?)
    ensures Room(fixed, f, v) == |Packed(f, v)| + if fixed && f.ty.FLOAT? then 1 else 0
  {
  }

  /** A null reserves what any other value of its field would; its text counts in a VARCHAR. */
  lemma NullReservesToo(fixed: bool, f: Field, s: seq<Byte>, v: Value)
    requires Fits(f, v) && !v.Null? && (fixed ==> !f.ty.VARCHAR?) && (f.ty.VARCHAR? ==> v == Text(s))
    ensures Room(fixed, f, Null(s)) == Room(fixed, f, v)
  {
  }

  /** In a row that is too short a string is what there is of it; a fixed-length one is filled up with zeros. */
  lemma ShortStrings(f: Field, row: seq<Byte>, pos: nat)
    requires Readable(f, row, pos) && pos <= |row| && (f.ty.CHARX? || f.ty.VARCHAR?)
    ensures ReadValue(f, row, pos).v.Text?
    ensures f.ty.CHARX? ==>
              var s := ReadValue(f, row, pos).v.s;
              |s| == f.length && forall i :: 0 <= i < |s| ==> s[i] == if pos + i < |row| then row[pos + i] else 0
    ensures f.ty.VARCHAR? ==>
              var s, n := ReadValue(f, row, pos).v.s, IntAt(row, pos);
              && s <= row[pos + 8..] && |s| <= n && (|s| == n || s == row[pos + 8..])
  {
  }

  /** The bytes of a null, a number, a bool and a string filled up: a flag each, and the number's low byte first. */
  lemma PackedExample()
    ensures Packed(Field(INT, 0), Null([])) == [1]
    ensures Packed(Field(INT, 0), Int(258)) == [0, 2, 1, 0, 0, 0, 0, 0, 0]
    ensures Packed(Field(BOOL, 0), Bool(true)) == [0, 1]
    ensures Packed(Field(CHARX, 3), Text([65])) == [0, 65, 32, 32]
    ensures Packed(Field(VARCHAR, 0), Text([65])) == [0, 1, 0, 0, 0, 0, 0, 0, 0, 65]
  {
  }

  class Table {
    var fields: seq<Field>
    /** The size of every row, or -1 when rows differ in size. */
    var rowsize: int

    predicate Valid()
      reads this
    {
      rowsize == if HasVarchar(fields) then -1 else FixedRooms(fields)
    }

    constructor ()
      ensures Valid() && fields == []
    {
      fields, rowsize := [], 0;
    }

    method AddField(f: Field) returns (id: nat)
      requires Valid()
      modifies this
      ensures Valid() && fields == old(fields) + [f] && id == |old(fields)|
    {
      FieldAdded(fields, f);
      fields := fields + [f];
      if rowsize != -1 {
        rowsize := rowsize + 1;
        match f.ty
        case INT => rowsize := rowsize + 8;
        case UINT => rowsize := rowsize + 8;
        case BOOL => rowsize := rowsize + 1;
        case FLOAT => rowsize := rowsize + 16 + 1;
        case CHAR => rowsize := rowsize + 1;
        case CHARX => rowsize := rowsize + f.length;
        case VARCHAR => rowsize := -1;
      }
      id := |fields| - 1;
    }

    /** The buffer, all zero; the row size is counted up meanwhile and set back. */
    method MakeBuffer(fieldVal: array<Value>) returns (res: array<Byte>)
      requires Valid() && fieldVal.Length == |fields|
      modifies this`rowsize
      ensures Valid() && fresh(res)
      ensures res[..] == Zeros(RowSize(fields, fieldVal[..]))
    {
      ghost var vs := fieldVal[..];
      if rowsize != -1 {
        FixedIsRooms(fields, vs);
        res := new Byte[rowsize](_ => 0);
        return;
      }
      var rsize, hasvarchar := 0, false;
      var n := 0;
      while n < |fields|
        invariant n <= |fields|
        invariant rsize == Rooms(false, fields[..n], vs[..n])
        invariant hasvarchar <==> HasVarchar(fields[..n])
      {
        RoomsStep(false, fields, vs, n);
        FieldAdded(fields[..n], fields[n]);
        assert fields[..n + 1] == fields[..n] + [fields[n]];
        rowsize := rowsize + 1;
        rsize := rsize + ValueRoom(fields[n], fieldVal[n]);
        if fields[n].ty.VARCHAR? {
          hasvarchar := true;
        }
        n := n + 1;
      }
      assert fields[..n] == fields && vs[..n] == vs;
      if hasvarchar {
        rowsize := -1;
      }
      res := new Byte[rsize](_ => 0);
    }

    /** Strings that are too short are filled up in the caller's own values. */
    method MakeRow(fieldVal: array<Value>) returns (ok: bool, res: array<Byte>)
      requires Valid() && (fieldVal.Length == |fields| ==> AllFit(fields, fieldVal[..]))
      modifies fieldVal, this`rowsize
      ensures Valid() && fresh(res)
      ensures ok <==> fieldVal.Length == |fields|
      ensures ok ==> res[..] == Row(fields, old(fieldVal[..]))
      ensures ok ==> forall i :: 0 <= i < fieldVal.Length ==> fieldVal[i] == Padded(fields[i], old(fieldVal[i]))
    {
      if fieldVal.Length != |fields| {
        res := new Byte[0];
        return false, res;
      }
      ghost var vs := fieldVal[..];
      res := MakeBuffer(fieldVal);
      PutFields(fieldVal, res);
      ok := true;
    }

    method PutFields(fieldVal: array<Value>, res: array<Byte>)
      requires AllFit(fields, fieldVal[..]) && res[..] == Zeros(RowSize(fields, fieldVal[..]))
      modifies fieldVal, res
      ensures res[..] == Row(fields, old(fieldVal[..]))
      ensures forall i :: 0 <= i < fieldVal.Length ==> fieldVal[i] == Padded(fields[i], old(fieldVal[i]))
    {
      ghost var vs := fieldVal[..];
      var pos := 0;
      var n := 0;
      PartlyAtStart(fields, vs);
      while n < |fields|
        invariant n <= |fields|
        invariant fieldVal[..] == PartlyPadded(fields, vs, n)
        invariant pos == Reach(fields, vs, n) && res[..] == PartlyPacked(fields, vs, n)
      {
        PaddedStep(fields, vs, n);
        PackStep(fields, vs, n);
        pos := PutField(fields[n], fieldVal, n, res, pos);
        n := n + 1;
      }
      assert fields[..n] == fields && vs[..n] == vs;
    }

    /** unmakerow, on a row with a byte to look at. */
    method UnmakeRow(rowstring: seq<Byte>) returns (ok: bool, resultFields: seq<Value>)
      requires rowstring != [] || fields == []
      requires CanRead(fields, rowstring, 0, 0)
      ensures ok <==> Unpacked(fields, rowstring, 0, 0).Some?
      ensures ok ==> resultFields == Unpacked(fields, rowstring, 0, 0).value
    {
      var pos: nat, n := 0, 0;
      resultFields := [];
      BehindNothing(Unpacked(fields, rowstring, 0, 0));
      while n < |fields|
        invariant n <= |fields| && CanRead(fields, rowstring, n, pos)
        invariant Behind(resultFields, Unpacked(fields, rowstring, n, pos)) == Unpacked(fields, rowstring, 0, 0)
      {
        ghost var rest := Unpacked(fields, rowstring, n, pos);
        if pos >= |rowstring| - 1 {
          return false, resultFields;
        }
        var r := if rowstring[pos] != 0 then Read(Null([]), pos + 1) else ReadValue(fields[n], rowstring, pos + 1);
        BehindStep(resultFields, r.v, Unpacked(fields, rowstring, n + 1, r.pos));
        resultFields := resultFields + [r.v];
        pos := r.pos;
        n := n + 1;
      }
      return true, resultFields;
    }
  }

  function Behind(vs: seq<Value>, rest: Option<seq<Value>>): Option<seq<Value>> {
    match rest
    case None => None
    case Some(ws) => Some(vs + ws)
  }

  lemma BehindNothing(rest: Option<seq<Value>>)
    ensures Behind([], rest) == rest
  {
    assert rest.Some? ==> [] + rest.value == rest.value;
  }

  lemma BehindStep(vs: seq<Value>, v: Value, rest: Option<seq<Value>>)
    ensures Behind(vs, Prefixed(v, rest)) == Behind(vs + [v], rest)
  {
    assert rest.Some? ==> vs + ([v] + rest.value) == (vs + [v]) + rest.value;
  }

  /** The caller's values when the first `n` fields have been stored. */
  function PartlyPadded(fs: seq<Field>, vs: seq<Value>, n: nat): (r: seq<Value>)
    requires |fs| == |vs|
    ensures |r| == |vs|
  {
    seq(|vs|, i requires 0 <= i < |vs| => if i < n then Padded(fs[i], vs[i]) else vs[i])
  }

  /** The buffer at that time: what is packed, and zeros. */
  function PartlyPacked(fs: seq<Field>, vs: seq<Value>, n: nat): seq<Byte>
    requires AllFit(fs, vs) && n <= |fs|
  {
    PackedAll(fs[..n], vs[..n]) + Zeros(if Reach(fs, vs, n) <= RowSize(fs, vs) then RowSize(fs, vs) - Reach(fs, vs, n) else 0)
  }

  lemma PartlyAtStart(fs: seq<Field>, vs: seq<Value>)
    requires AllFit(fs, vs)
    ensures PartlyPadded(fs, vs, 0) == vs && PartlyPacked(fs, vs, 0) == Zeros(RowSize(fs, vs)) && Reach(fs, vs, 0) == 0
  {
  }

  lemma PutInZeros(a: seq<Byte>, p: seq<Byte>, k: nat)
    requires |p| <= k
    ensures (a + Zeros(k))[..|a|] + p + (a + Zeros(k))[|a| + |p|..] == (a + p) + Zeros(k - |p|)
  {
    assert (a + Zeros(k))[..|a|] == a;
    assert (a + Zeros(k))[|a| + |p|..] == Zeros(k - |p|);
  }

  lemma PaddedStep(fs: seq<Field>, vs: seq<Value>, n: nat)
    requires |fs| == |vs| && n < |fs|
    ensures PartlyPadded(fs, vs, n)[n] == vs[n]
    ensures PartlyPadded(fs, vs, n)[n := Padded(fs[n], vs[n])] == PartlyPadded(fs, vs, n + 1)
  {
  }

  lemma PackStep(fs: seq<Field>, vs: seq<Value>, n: nat)
    requires AllFit(fs, vs) && n < |fs|
    ensures var p, row, pos := Packed(fs[n], vs[n]), PartlyPacked(fs, vs, n), Reach(fs, vs, n);
      && pos + |p| <= |row| == RowSize(fs, vs) && Reach(fs, vs, n + 1) == pos + |p|
      && row[..pos] + p + row[pos + |p|..] == PartlyPacked(fs, vs, n + 1)
  {
    RoomLeft(fs, vs, n);
    PackedStep(fs, vs, n);
    assert fs[n] in fs;
    PackedFits(!HasVarchar(fs), fs[n], vs[n]);
    PutInZeros(PackedAll(fs[..n], vs[..n]), Packed(fs[n], vs[n]), RowSize(fs, vs) - Reach(fs, vs, n));
  }

  /** What is stored of a value that is not null. */
  method StoredBytes(f: Field, fieldVal: array<Value>, n: nat) returns (bytes: seq<Byte>)
    requires n < fieldVal.Length && Fits(f, fieldVal[n]) && !fieldVal[n].Null?
    modifies fieldVal
    ensures bytes == Payload(f, old(fieldVal[n]))
    ensures fieldVal[..] == old(fieldVal[..])[n := Padded(f, old(fieldVal[n]))]
  {
    match f.ty
    case INT => bytes := Le(Wrapped(fieldVal[n].i), 8);
    case UINT => bytes := Le(fieldVal[n].u, 8);
    case BOOL => bytes := [if fieldVal[n].b then 1 else 0];
    case FLOAT => bytes := fieldVal[n].raw;
    case CHAR => bytes := [fieldVal[n].c];
    case CHARX =>
      if |fieldVal[n].s| < f.length {
        fieldVal[n] := Text(fieldVal[n].s + Spaces(f.length - |fieldVal[n].s|));
      }
      bytes := fieldVal[n].s[..f.length];
    case VARCHAR => bytes := Le(|fieldVal[n].s|, 8) + fieldVal[n].s;
  }

  /** One field behind what the buffer holds; it never reaches past the buffer. */
  method PutField(f: Field, fieldVal: array<Value>, n: nat, res: array<Byte>, pos: nat) returns (newpos: nat)
    requires n < fieldVal.Length && Fits(f, fieldVal[n])
    requires pos + |Packed(f, fieldVal[n])| <= res.Length
    modifies fieldVal, res
    ensures newpos == pos + |Packed(f, old(fieldVal[n]))|
    ensures res[..] == old(res[..pos]) + Packed(f, old(fieldVal[n])) + old(res[newpos..])
    ensures fieldVal[..] == old(fieldVal[..])[n := Padded(f, old(fieldVal[n]))]
  {
    ghost var p, before := Packed(f, fieldVal[n]), res[..];
    if fieldVal[n].Null? {
      res[pos] := 1;
      return pos + 1;
    }
    res[pos] := 0;
    ghost var flagged := res[..];
    var bytes := StoredBytes(f, fieldVal, n);
    assert p == [0] + bytes && res[..] == flagged;
    MemCpy(res, pos + 1, bytes);
    newpos := pos + 1 + |bytes|;
    assert flagged[..pos + 1] == before[..pos] + [0] && flagged[newpos..] == before[newpos..];
  }

  lemma {:induction false} FieldAdded(fs: seq<Field>, f: Field)
    ensures HasVarchar(fs + [f]) <==> HasVarchar(fs) || f.ty.VARCHAR?
    ensures FixedRooms(fs + [f]) == FixedRooms(fs) + FixedRoom(f)
  {
    assert (fs + [f])[..|fs|] == fs;
    assert f in fs + [f] && forall g :: g in fs ==> g in fs + [f];
  }
}
