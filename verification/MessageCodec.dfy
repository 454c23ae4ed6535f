/**
 * The binary form of messages between nodes (Message.cc). Every overload of ser,
 * des and sersize follows from the shape it spells out: raw bytes, a string with
 * its length in front, a container with its count in front, or parts in order.
 */
module MessageCodec {
  import opened Bytes
  import opened Options

  datatype Shape = Pod(size: nat) | Str | Vec(elem: Shape) | Rec(fields: seq<Shape>)
  datatype Val = Raw(bytes: seq<Byte>) | List(kids: seq<Val>)

  /** A value of the shape, with lengths that a 64-bit count can hold. */
  predicate Is(v: Val, sh: Shape)
    decreases v
  {
    match v
    case Raw(b) => (sh.Pod? && |b| == sh.size) || (sh.Str? && |b| < HALF64)
    case List(kids) =>
      if sh.Vec? then |kids| < HALF64 && forall i :: 0 <= i < |kids| ==> Is(kids[i], sh.elem)
      else sh.Rec? && |kids| == |sh.fields| && forall i :: 0 <= i < |kids| ==> Is(kids[i], sh.fields[i])
  }

  // ----- the bytes of a value -----

  function Enc(sh: Shape, v: Val): seq<Byte>
    requires Is(v, sh)
    decreases v, 1, 0
  {
    match sh
    case Pod(_) => v.bytes
    case Str => Le(|v.bytes|, 8) + v.bytes
    case Vec(_) => Le(|v.kids|, 8) + EncKids(sh, v, 0)
    case Rec(_) => EncKids(sh, v, 0)
  }

  /** From the `k`-th part on. */
  function EncKids(sh: Shape, v: Val, k: nat): seq<Byte>
    requires Is(v, sh) && v.List? && k <= |v.kids|
    decreases v, 0, |v.kids| - k
  {
    if k == |v.kids| then [] else Enc(KidShape(sh, k), v.kids[k]) + EncKids(sh, v, k + 1)
  }

  function KidShape(sh: Shape, k: nat): Shape
    requires sh.Vec? || (sh.Rec? && k < |sh.fields|)
  {
    if sh.Vec? then sh.elem else sh.fields[k]
  }

  // ----- reading them back -----

  datatype Got<T> = Got(v: T, rest: seq<Byte>)

  function Dec(sh: Shape, b: seq<Byte>): Option<Got<Val>>
    decreases sh, 2, 0
  {
    match sh
    case Pod(n) => if n <= |b| then Some(Got(Raw(b[..n]), b[n..])) else None
    case Str =>
      if |b| < 8 then None
      else
        var n := FromLe(b[..8]);
        if n <= |b| - 8 then Some(Got(Raw(b[8..8 + n]), b[8 + n..])) else None
    case Vec(e) => if |b| < 8 then None else AsList(DecMany(e, FromLe(b[..8]), b[8..]))
    case Rec(_) => AsList(DecFields(sh, 0, b))
  }

  function DecMany(e: Shape, n: nat, b: seq<Byte>): Option<Got<seq<Val>>>
    decreases e, 3, n
  {
    if n == 0 then Some(Got([], b))
    else
      match Dec(e, b)
      case None => None
      case Some(g) => InFront(g.v, DecMany(e, n - 1, g.rest))
  }

  function DecFields(sh: Shape, k: nat, b: seq<Byte>): Option<Got<seq<Val>>>
    requires sh.Rec? && k <= |sh.fields|
    decreases sh, 1, |sh.fields| - k
  {
    if k == |sh.fields| then Some(Got([], b))
    else
      match Dec(sh.fields[k], b)
      case None => None
      case Some(g) => InFront(g.v, DecFields(sh, k + 1, g.rest))
  }

  function InFront(v: Val, more: Option<Got<seq<Val>>>): Option<Got<seq<Val>>> {
    match more
    case None => None
    case Some(Got(vs, rest)) => Some(Got([v] + vs, rest))
  }

  function AsList(g: Option<Got<seq<Val>>>): Option<Got<Val>> {
    match g
    case None => None
    case Some(Got(vs, rest)) => Some(Got(List(vs), rest))
  }

  // ----- the round trip, for every shape -----

  lemma CountRoundTrip(n: nat, more: seq<Byte>)
    requires n < HALF64
    ensures FromLe((Le(n, 8) + more)[..8]) == n && (Le(n, 8) + more)[8..] == more
  {
    Pow256Of8();
    LeRoundTrip(n, 8);
    assert (Le(n, 8) + more)[..8] == Le(n, 8);
  }

  lemma StrRoundTrip(s: seq<Byte>, rest: seq<Byte>)
    requires |s| < HALF64
    ensures Dec(Str, Le(|s|, 8) + s + rest) == Some(Got(Raw(s), rest))
  {
    CountRoundTrip(|s|, s + rest);
    var b := Le(|s|, 8) + s + rest;
    assert b == Le(|s|, 8) + (s + rest);
    assert b[8..8 + |s|] == s && b[8 + |s|..] == rest;
  }

  /** What was written is read back, and nothing of what follows is touched. */
  lemma {:induction false} RoundTrip(sh: Shape, v: Val, rest: seq<Byte>)
    requires Is(v, sh)
    ensures Dec(sh, Enc(sh, v) + rest) == Some(Got(v, rest))
    decreases v, 1, 0
  {
    match sh
    case Pod(n) =>
      assert (v.bytes + rest)[..n] == v.bytes && (v.bytes + rest)[n..] == rest;
    case Str =>
      StrRoundTrip(v.bytes, rest);
    case Vec(e) =>
      var body := EncKids(sh, v, 0) + rest;
      assert Enc(sh, v) + rest == Le(|v.kids|, 8) + body;
      CountRoundTrip(|v.kids|, body);
      ManyRoundTrip(sh, v, 0, rest);
      assert v.kids[0..] == v.kids;
    case Rec(fs) =>
      FieldsRoundTrip(sh, v, 0, rest);
      assert v.kids[0..] == v.kids;
  }

  lemma {:induction false} ManyRoundTrip(sh: Shape, v: Val, k: nat, rest: seq<Byte>)
    requires Is(v, sh) && sh.Vec? && k <= |v.kids|
    ensures DecMany(sh.elem, |v.kids| - k, EncKids(sh, v, k) + rest) == Some(Got(v.kids[k..], rest))
    decreases v, 0, |v.kids| - k
  {
    if k == |v.kids| {
      assert EncKids(sh, v, k) + rest == rest && v.kids[k..] == [];
    } else {
      var tail := EncKids(sh, v, k + 1) + rest;
      assert EncKids(sh, v, k) + rest == Enc(sh.elem, v.kids[k]) + tail;
      RoundTrip(sh.elem, v.kids[k], tail);
      ManyRoundTrip(sh, v, k + 1, rest);
      assert v.kids[k..] == [v.kids[k]] + v.kids[k + 1..];
    }
  }

  lemma {:induction false} FieldsRoundTrip(sh: Shape, v: Val, k: nat, rest: seq<Byte>)
    requires Is(v, sh) && sh.Rec? && k <= |v.kids|
    ensures DecFields(sh, k, EncKids(sh, v, k) + rest) == Some(Got(v.kids[k..], rest))
    decreases v, 0, |v.kids| - k
  {
    if k == |v.kids| {
      assert EncKids(sh, v, k) + rest == rest && v.kids[k..] == [];
    } else {
      var tail := EncKids(sh, v, k + 1) + rest;
      assert EncKids(sh, v, k) + rest == Enc(sh.fields[k], v.kids[k]) + tail;
      RoundTrip(sh.fields[k], v.kids[k], tail);
      FieldsRoundTrip(sh, v, k + 1, rest);
      assert v.kids[k..] == [v.kids[k]] + v.kids[k + 1..];
    }
  }

  /** A string and a list have their count in front, in 8 bytes, low byte first; parts follow each other. */
  lemma EncExamples(x: Byte, y: Byte)
    ensures var v := List([Raw([x]), Raw([y])]);
      && Enc(Str, Raw([x])) == [1, 0, 0, 0, 0, 0, 0, 0] + [x]
      && Enc(Rec([Pod(1), Pod(1)]), v) == [x, y]
      && Enc(Vec(Pod(1)), v) == [2, 0, 0, 0, 0, 0, 0, 0] + [x, y]
  {
    var v := List([Raw([x]), Raw([y])]);
    assert Le(1, 8) == [1, 0, 0, 0, 0, 0, 0, 0] && Le(2, 8) == [2, 0, 0, 0, 0, 0, 0, 0];
    TwoKids(Rec([Pod(1), Pod(1)]), v, x, y);
    TwoKids(Vec(Pod(1)), v, x, y);
  }

  lemma TwoKids(sh: Shape, v: Val, x: Byte, y: Byte)
    requires Is(v, sh) && v == List([Raw([x]), Raw([y])])
    requires KidShape(sh, 0) == KidShape(sh, 1) == Pod(1)
    ensures EncKids(sh, v, 0) == [x, y]
  {
    assert EncKids(sh, v, 2) == [];
    assert EncKids(sh, v, 1) == Enc(Pod(1), v.kids[1]) + EncKids(sh, v, 2) == [y];
    assert EncKids(sh, v, 0) == Enc(Pod(1), v.kids[0]) + EncKids(sh, v, 1);
  }

  // ----- writing into and reading from the buffer -----

  /** `d` with `x` written over it at `p`. */
  function Over(d: seq<Byte>, p: nat, x: seq<Byte>): (r: seq<Byte>)
    requires p + |x| <= |d|
    ensures |r| == |d|
  {
    d[..p] + x + d[p + |x|..]
  }

  lemma PutTwice(d: seq<Byte>, p: nat, x: seq<Byte>, y: seq<Byte>)
    requires p + |x| + |y| <= |d|
    ensures Over(Over(d, p, x), p + |x|, y) == Over(d, p, x + y)
  {
    var e := Over(d, p, x);
    assert e[..p + |x|] == d[..p] + x && e[p + |x| + |y|..] == d[p + |x + y|..];
  }

  /** The bytes of the first `n` parts. */
  function EncFirst(sh: Shape, v: Val, n: nat): seq<Byte>
    requires Is(v, sh) && v.List? && n <= |v.kids|
  {
    if n == 0 then [] else EncFirst(sh, v, n - 1) + Enc(KidShape(sh, n - 1), v.kids[n - 1])
  }

  lemma {:induction false} FirstAndRest(sh: Shape, v: Val, n: nat)
    requires Is(v, sh) && v.List? && n <= |v.kids|
    ensures EncFirst(sh, v, n) + EncKids(sh, v, n) == EncKids(sh, v, 0)
  {
    if n == 0 {
      assert [] + EncKids(sh, v, 0) == EncKids(sh, v, 0);
    } else {
      FirstAndRest(sh, v, n - 1);
      var a, b, c := EncFirst(sh, v, n - 1), Enc(KidShape(sh, n - 1), v.kids[n - 1]), EncKids(sh, v, n);
      assert (a + b) + c == a + (b + c);
    }
  }

  /** The first parts and one more. */
  lemma NextKid(sh: Shape, v: Val, n: nat, d: seq<Byte>, p: nat)
    requires Is(v, sh) && v.List? && n < |v.kids| && p + |EncKids(sh, v, 0)| <= |d|
    ensures var x, y := EncFirst(sh, v, n), Enc(KidShape(sh, n), v.kids[n]);
      && EncFirst(sh, v, n + 1) == x + y && p + |x| + |y| <= |d|
      && Over(Over(d, p, x), p + |x|, y) == Over(d, p, x + y)
  {
    FirstAndRest(sh, v, n + 1);
    PutTwice(d, p, EncFirst(sh, v, n), Enc(KidShape(sh, n), v.kids[n]));
  }

  class SerializedMessage {
    const data: array<Byte>
    var pos: nat

    constructor (data: array<Byte>)
      ensures this.data == data && pos == 0
    {
      this.data := data;
      pos := 0;
    }

    method PutBytes(bytes: seq<Byte>)
      requires pos + |bytes| <= data.Length
      modifies this`pos, data
      ensures pos == old(pos) + |bytes| && data[..] == Over(old(data[..]), old(pos), bytes)
    {
      MemCpy(data, pos, bytes);
      pos := pos + |bytes|;
    }

    /** ser, of any type; the buffer must have been made large enough. */
    method Ser(sh: Shape, v: Val)
      requires Is(v, sh) && pos + |Enc(sh, v)| <= data.Length
      modifies this`pos, data
      ensures pos == old(pos) + |Enc(sh, v)| && data[..] == Over(old(data[..]), old(pos), Enc(sh, v))
      decreases v, 1, 0
    {
      match sh
      case Pod(_) => PutBytes(v.bytes);
      case Str => PutBytes(Le(|v.bytes|, 8) + v.bytes);
      case Vec(_) =>
        PutTwice(data[..], pos, Le(|v.kids|, 8), EncKids(sh, v, 0));
        PutBytes(Le(|v.kids|, 8));
        SerKids(sh, v);
      case Rec(_) => SerKids(sh, v);
    }

    method SerKids(sh: Shape, v: Val)
      requires Is(v, sh) && v.List? && pos + |EncKids(sh, v, 0)| <= data.Length
      modifies this`pos, data
      ensures pos == old(pos) + |EncKids(sh, v, 0)| && data[..] == Over(old(data[..]), old(pos), EncKids(sh, v, 0))
      decreases v, 0, 0
    {
      ghost var d, p := data[..], pos;
      var n := 0;
      while n < |v.kids|
        invariant n <= |v.kids| && pos == p + |EncFirst(sh, v, n)| <= data.Length
        invariant data[..] == Over(d, p, EncFirst(sh, v, n))
      {
        NextKid(sh, v, n, d, p);
        Ser(KidShape(sh, n), v.kids[n]);
        n := n + 1;
      }
      FirstAndRest(sh, v, n);
    }
  
    method TakeBytes(n: nat) returns (bytes: seq<Byte>)
      requires pos + n <= data.Length
      modifies this`pos
      ensures pos == old(pos) + n
      ensures bytes == data[old(pos)..][..n] && data[pos..] == data[old(pos)..][n..]
    {
      assert data[pos..][..n] == data[pos..pos + n] && data[pos..][n..] == data[pos + n..];
      bytes := data[pos..pos + n];
      pos := pos + n;
    }

    /** des, of any type, into a fresh value; what is read must be there. */
    method Des(sh: Shape) returns (v: Val)
      requires pos <= data.Length && Dec(sh, data[pos..]).Some?
      modifies this`pos
      ensures old(pos) <= pos <= data.Length
      ensures Dec(sh, data[old(pos)..]) == Some(Got(v, data[pos..]))
      decreases sh, 2, 0
    {
      ghost var b := data[pos..];
      match sh
      case Pod(n) =>
        var bytes := TakeBytes(n);
        v := Raw(bytes);
      case Str =>
        var count := TakeBytes(8);
        var bytes := TakeBytes(FromLe(count));
        assert bytes == b[8..8 + FromLe(count)] && data[pos..] == b[8 + FromLe(count)..];
        v := Raw(bytes);
      case Vec(e) =>
        var count := TakeBytes(8);
        var kids := DesMany(e, FromLe(count));
        v := List(kids);
      case Rec(_) =>
        var kids := DesFields(sh);
        v := List(kids);
    }

    method DesMany(e: Shape, count: nat) returns (kids: seq<Val>)
      requires pos <= data.Length && DecMany(e, count, data[pos..]).Some?
      modifies this`pos
      ensures old(pos) <= pos <= data.Length
      ensures DecMany(e, count, data[old(pos)..]) == Some(Got(kids, data[pos..]))
      decreases e, 3, 0
    {
      ghost var all := DecMany(e, count, data[pos..]);
      kids := [];
      BehindNothing(all);
      var n := 0;
      while n < count
        invariant n <= count && old(pos) <= pos <= data.Length
        invariant Behind(kids, DecMany(e, count - n, data[pos..])) == all
      {
        var kid := Des(e);
        BehindStep(kids, kid, DecMany(e, count - n - 1, data[pos..]));
        kids := kids + [kid];
        n := n + 1;
      }
      assert kids + [] == kids;
    }

    method DesFields(sh: Shape) returns (kids: seq<Val>)
      requires sh.Rec? && pos <= data.Length && DecFields(sh, 0, data[pos..]).Some?
      modifies this`pos
      ensures old(pos) <= pos <= data.Length
      ensures DecFields(sh, 0, data[old(pos)..]) == Some(Got(kids, data[pos..]))
      decreases sh, 1, 0
    {
      ghost var all := DecFields(sh, 0, data[pos..]);
      kids := [];
      BehindNothing(all);
      var n := 0;
      while n < |sh.fields|
        invariant n <= |sh.fields| && old(pos) <= pos <= data.Length
        invariant Behind(kids, DecFields(sh, n, data[pos..])) == all
      {
        var kid := Des(sh.fields[n]);
        BehindStep(kids, kid, DecFields(sh, n + 1, data[pos..]));
        kids := kids + [kid];
        n := n + 1;
      }
      assert kids + [] == kids;
    }
  }

  function Behind(kids: seq<Val>, more: Option<Got<seq<Val>>>): Option<Got<seq<Val>>> {
    match more
    case None => None
    case Some(Got(vs, rest)) => Some(Got(kids + vs, rest))
  }

  lemma BehindNothing(more: Option<Got<seq<Val>>>)
    ensures Behind([], more) == more
  {
    assert more.Some? ==> [] + more.value.v == more.value.v;
  }

  lemma BehindStep(kids: seq<Val>, v: Val, more: Option<Got<seq<Val>>>)
    ensures Behind(kids, InFront(v, more)) == Behind(kids + [v], more)
  {
    assert more.Some? ==> kids + ([v] + more.value.v) == (kids + [v]) + more.value.v;
  }

  // ----- sersize -----

  lemma {:induction false} PodKids(sh: Shape, v: Val, k: nat)
    requires Is(v, sh) && sh.Vec? && sh.elem.Pod? && k <= |v.kids|
    ensures |EncKids(sh, v, k)| == (|v.kids| - k) * sh.elem.size
    decreases |v.kids| - k
  {
    if k < |v.kids| {
      PodKids(sh, v, k + 1);
      assert (|v.kids| - k) * sh.elem.size == (|v.kids| - k - 1) * sh.elem.size + sh.elem.size;
    }
  }

  /** The size computed beforehand is the number of bytes written. */
  method SerSize(sh: Shape, v: Val) returns (s: nat)
    requires Is(v, sh)
    ensures s == |Enc(sh, v)|
    decreases v, 1, 0
  {
    match sh
    case Pod(n) => s := n;
    case Str => s := 8 + |v.bytes|;
    case Vec(e) =>
      if e.Pod? {
        PodKids(sh, v, 0);
        s := 8 + |v.kids| * e.size;
      } else {
        s := KidsSize(sh, v);
        s := 8 + s;
      }
    case Rec(_) => s := KidsSize(sh, v);
  }

  method KidsSize(sh: Shape, v: Val) returns (s: nat)
    requires Is(v, sh) && v.List?
    ensures s == |EncKids(sh, v, 0)|
    decreases v, 0, 0
  {
    s := 0;
    var n := 0;
    while n < |v.kids|
      invariant n <= |v.kids| && s + |EncKids(sh, v, n)| == |EncKids(sh, v, 0)|
    {
      var one := SerSize(KidShape(sh, n), v.kids[n]);
      s := s + one;
      n := n + 1;
    }
  }

  // ----- the messages -----

  /** The sizes of the structs that are copied whole. */
  datatype Structs = Structs(header: nat, transaction: nat, subtransaction: nat,
                             userschema: nat, procedures: nat, deadlock: nat, indexEntry: nat)

  const I64 := Pod(8)
  const I16 := Pod(2)
  /** Also how an enumeration or a bool is sent. */
  const I8 := Pod(1)

  /** Each type and each message is spelled out three times: for ser and package, for sersize and size, for des and unpack. */
  datatype Use = Writing | Sizing | Reading

  /** The 16-byte union of value kinds, the string, the null flag. */
  function FieldValue(u: Use): Shape {
    match u
    case Writing => Rec([Pod(16), Str, I8])
    case Sizing => Rec([Pod(16), Str, I8])
    case Reading => Rec([Pod(16), Str, I8])
  }

  /** rowid, previoussubtransactionid, locktype, row */
  function ReturnRow(u: Use): Shape {
    match u
    case Writing => Rec([I64, I64, I8, Str])
    case Sizing => Rec([I64, I64, I8, Str])
    case Reading => Rec([I64, I64, I8, Str])
  }

  /** op, values, regexString */
  function SearchParams(u: Use): Shape {
    match u
    case Writing => Rec([I8, Vec(FieldValue(u)), Str])
    case Sizing => Rec([I8, Vec(FieldValue(u)), Str])
    case Reading => Rec([I8, Vec(FieldValue(u)), Str])
  }

  /** isrow, tableid, rowid, fieldid, engineid, deleteindexentry, isnotaddunique, isreplace, newrowid, newengineid, fieldVal */
  function RowOrField(u: Use): Shape {
    match u
    case Writing => Rec([I8, I16, I64, I16, I16, I8, I8, I8, I64, I16, FieldValue(u)])
    case Sizing => Rec([I8, I16, I64, I16, I16, I8, I8, I8, I64, I16, FieldValue(u)])
    case Reading => Rec([I8, I16, I64, I16, I16, I8, I8, I8, I64, I16, FieldValue(u)])
  }

  /** The locked and the waiting set, each in the order in which it happens to be iterated. */
  function DeadlockLists(u: Use): Shape {
    match u
    case Writing => Rec([Vec(Str), Vec(Str)])
    case Sizing => Rec([Vec(Str), Vec(Str)])
    case Reading => Rec([Vec(Str), Vec(Str)])
  }

  datatype Kind = Subtransaction | CommitRollback | UserSchema | Deadlock

  datatype Part = Header | TransactionStruct | SubtransactionStruct | RowText | FieldVal | IndexHits
                | SearchParameters | Rowids | ReturnRows | Rofs | UserschemaStruct | Procs | Argstring | Pathname
                | Procname | Username | Domainname | Password | DeadlockStruct | DeadlockNode | Nodes

  function ShapeOf(p: Part, z: Structs, u: Use): Shape {
    match p
    case Header => Pod(z.header)
    case TransactionStruct => Pod(z.transaction)
    case SubtransactionStruct => Pod(z.subtransaction)
    case FieldVal => FieldValue(u)
    case IndexHits => Vec(Pod(z.indexEntry))
    case SearchParameters => SearchParams(u)
    case Rowids => Vec(I64)
    case ReturnRows => Vec(ReturnRow(u))
    case Rofs => Vec(RowOrField(u))
    case UserschemaStruct => Pod(z.userschema)
    case Procs => Pod(z.procedures)
    case DeadlockStruct => Pod(z.deadlock)
    case Nodes => DeadlockLists(u)
    case _ => Str
  }

  /** What package writes, in order. */
  function PackageOrder(k: Kind): seq<Part> {
    match k
    case Subtransaction => [Header, TransactionStruct, SubtransactionStruct, RowText, FieldVal, IndexHits,
                            SearchParameters, Rowids, ReturnRows]
    case CommitRollback => [Header, TransactionStruct, Rofs]
    case UserSchema => [Header, UserschemaStruct, Procs, Argstring, Pathname, Procname, Username, Domainname, Password]
    case Deadlock => [Header, DeadlockStruct, DeadlockNode, Nodes]
  }

  /** What size adds up, in order. */
  function SizeOrder(k: Kind): seq<Part> {
    match k
    case Subtransaction => [Header, TransactionStruct, SubtransactionStruct, RowText, FieldVal, IndexHits,
                            SearchParameters, Rowids, ReturnRows]
    case CommitRollback => [Header, TransactionStruct, Rofs]
    case UserSchema => [Header, UserschemaStruct, Procs, Argstring, Pathname, Procname, Username, Domainname, Password]
    case Deadlock => [Header, DeadlockStruct, DeadlockNode, Nodes]
  }

  /** What unpack reads, in order. */
  function UnpackOrder(k: Kind): seq<Part> {
    match k
    case Subtransaction => [Header, TransactionStruct, SubtransactionStruct, RowText, FieldVal, IndexHits,
                            SearchParameters, Rowids, ReturnRows]
    case CommitRollback => [Header, TransactionStruct, Rofs]
    case UserSchema => [Header, UserschemaStruct, Procs, Argstring, Pathname, Procname, Username, Domainname, Password]
    case Deadlock => [Header, DeadlockStruct, DeadlockNode, Nodes]
  }

  function OrderOf(k: Kind, u: Use): seq<Part> {
    match u
    case Writing => PackageOrder(k)
    case Sizing => SizeOrder(k)
    case Reading => UnpackOrder(k)
  }

  function ShapesOf(ps: seq<Part>, z: Structs, u: Use): seq<Shape> {
    seq(|ps|, i requires 0 <= i < |ps| => ShapeOf(ps[i], z, u))
  }

  function MessageShape(k: Kind, z: Structs, u: Use): Shape {
    Rec(ShapesOf(OrderOf(k, u), z, u))
  }

  /** The three spellings of each type agree, and so do those of each message. */
  lemma SpellingsAgree(k: Kind, z: Structs, u: Use)
    ensures MessageShape(k, z, u) == MessageShape(k, z, Writing)
  {
    forall p: Part ensures ShapeOf(p, z, u) == ShapeOf(p, z, Writing) {}
    assert OrderOf(k, u) == OrderOf(k, Writing);
    assert ShapesOf(OrderOf(k, u), z, u) == ShapesOf(OrderOf(k, Writing), z, Writing);
  }

  /** ser of a message: the buffer is made as large as size says, and package fills it exactly. */
  method SerMessage(k: Kind, z: Structs, v: Val) returns (data: array<Byte>)
    requires Is(v, MessageShape(k, z, Writing))
    ensures fresh(data) && data[..] == Enc(MessageShape(k, z, Writing), v)
  {
    SpellingsAgree(k, z, Sizing);
    var size := SerSize(MessageShape(k, z, Sizing), v);
    data := new Byte[size](_ => 0);
    var serobj := new SerializedMessage(data);
    serobj.Ser(MessageShape(k, z, Writing), v);
    assert serobj.pos == data.Length;
  }

  /** unpack of what was packaged gives the message back and reads all of it. */
  method DesMessage(k: Kind, z: Structs, data: array<Byte>, ghost sent: Val) returns (v: Val, pos: nat)
    requires Is(sent, MessageShape(k, z, Writing)) && data[..] == Enc(MessageShape(k, z, Writing), sent)
    ensures v == sent && pos == data.Length
  {
    SpellingsAgree(k, z, Reading);
    RoundTrip(MessageShape(k, z, Writing), sent, []);
    assert data[..] + [] == data[0..];
    var serobj := new SerializedMessage(data);
    v := serobj.Des(MessageShape(k, z, Reading));
    pos := serobj.pos;
    assert data[pos..] == [];
  }

  /** What unpacking makes of a packaged message. */
  function Received(k: Kind, z: Structs, v: Val): Option<Got<Val>>
    requires Is(v, MessageShape(k, z, Writing))
  {
    Dec(MessageShape(k, z, Reading), Enc(MessageShape(k, z, Writing), v))
  }

  /** Each of these messages comes back as it was, with every byte read. */
  lemma MessagesRoundTrip(k: Kind, z: Structs, v: Val)
    requires Is(v, MessageShape(k, z, Writing))
    ensures Received(k, z, v) == Some(Got(v, []))
  {
    var sent := MessageShape(k, z, Writing);
    SpellingsAgree(k, z, Reading);
    RoundTrip(sent, v, []);
    assert Enc(sent, v) + [] == Enc(sent, v);
  }

  // ----- sets, which have no order -----

  /** The set that a list of strings is inserted into. */
  function Elements(list: Val): set<seq<Byte>> {
    match list
    case Raw(_) => {}
    case List(kids) => set v | v in kids && v.Raw? :: v.bytes
  }

  /** des of a set: the strings are inserted one by one. */
  method InsertAll(list: Val) returns (d: set<seq<Byte>>)
    requires Is(list, Vec(Str))
    ensures forall x :: x in d <==> Raw(x) in list.kids
    ensures d == Elements(list)
  {
    d := {};
    var n := 0;
    while n < |list.kids|
      invariant n <= |list.kids| && d == Elements(List(list.kids[..n]))
    {
      assert list.kids[..n + 1] == list.kids[..n] + [list.kids[n]];
      d := d + {list.kids[n].bytes};
      n := n + 1;
    }
    assert list.kids[..n] == list.kids;
  }

  /** The locked (0) or waiting (1) set of a deadlock message. */
  function SetOf(v: Val, i: nat): set<seq<Byte>> {
    if v.List? && |v.kids| == 4 && v.kids[3].List? && i < |v.kids[3].kids| then Elements(v.kids[3].kids[i]) else {}
  }

  /** Set 0 or 1 of a deadlock message holds the strings of its first or second list. */
  lemma SetsAreLists(z: Structs, v: Val, i: nat, x: seq<Byte>)
    requires Is(v, MessageShape(Deadlock, z, Writing)) && i < 2
    ensures |v.kids| == 4 && v.kids[3].List? && |v.kids[3].kids| == 2 && v.kids[3].kids[i].List?
    ensures x in SetOf(v, i) <==> Raw(x) in v.kids[3].kids[i].kids
  {
    assert Is(v.kids[3], DeadlockLists(Writing));
    assert Is(v.kids[3].kids[i], Vec(Str));
  }

  /** Two messages made from the same sets, each iterated in an order of its own, are received with the same sets. */
  lemma SetsRecovered(z: Structs, v: Val, w: Val, i: nat)
    requires Is(v, MessageShape(Deadlock, z, Writing)) && Is(w, MessageShape(Deadlock, z, Writing))
    requires SetOf(v, i) == SetOf(w, i)
    ensures Received(Deadlock, z, v).Some? && Received(Deadlock, z, w).Some?
    ensures SetOf(Received(Deadlock, z, v).value.v, i) == SetOf(Received(Deadlock, z, w).value.v, i) == SetOf(v, i)
  {
    MessagesRoundTrip(Deadlock, z, v);
    MessagesRoundTrip(Deadlock, z, w);
  }
}
