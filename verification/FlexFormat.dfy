/**
 * FlexBuffers: how values lie in a buffer, and the readers of them. A pointer is a position in the buffer;
 * a read that would leave the buffer gives Fault.
 */
module FlexFormat {
  import opened Bytes
  import opened FlatReader

  // ----- types and widths

  const FBT_NULL := 0
  const FBT_INT := 1
  const FBT_UINT := 2
  const FBT_KEY := 4
  const FBT_STRING := 5
  const FBT_MAP := 9
  const FBT_VECTOR := 10
  const FBT_VECTOR_KEY := 14
  const FBT_BOOL := 26

  /** IsInline, for the types of the model. */
  predicate IsInline(t: nat) {
    t == FBT_NULL || t == FBT_INT || t == FBT_UINT || t == FBT_BOOL
  }

  /** A BitWidth: 0 to 3 stand for 8, 16, 32 and 64 bits. */
  type BitWidth = w: nat | w <= 3

  function ByteWidth(w: BitWidth): (n: nat)
    ensures IsAlignment(n)
  {
    if w == 0 then 1 else if w == 1 then 2 else if w == 2 then 4 else 8
  }

  /** WidthU: the first of the widths 8, 16 and 32 that has room for u, or else 64. */
  function WidthU(u: nat): BitWidth {
    if u < 0x100 then 0 else if u < 0x1_0000 then 1 else if u < 0x1_0000_0000 then 2 else 3
  }

  /** WidthI: the sign bit needs a place of its own, so i is doubled, and complemented when it is negative. */
  function WidthI(i: int): BitWidth {
    WidthU(if i >= 0 then 2 * i else -2 * i - 1)
  }

  function MaxWidth(x: BitWidth, y: BitWidth): BitWidth {
    if x > y then x else y
  }

  function PackedType(w: BitWidth, t: nat): nat {
    w + 4 * t
  }

  // ----- references

  /** Reference: where a value or its offset is, how wide it is there, and the width and type of what it refers to. */
  datatype Reference = Reference(pos: int, parentWidth: nat, byteWidth: nat, type_: nat)

  function FromPacked(pos: int, parentWidth: nat, packed: nat): Reference {
    Reference(pos, parentWidth, ByteWidth(packed % 4), packed / 4)
  }

  const NULL_REFERENCE: Reference := Reference(0, 1, 1, FBT_NULL)

  /** Indirect: an offset leads backwards from where it is stored. */
  function Indirect(buf: seq<byte>, pos: int, width: nat): Read<int> {
    var off :- ReadUnsigned(buf, pos, width);
    Got(pos - off)
  }

  function AsInt64(buf: seq<byte>, r: Reference): Read<int> {
    ReadSigned(buf, r.pos, r.parentWidth)
  }

  function AsUInt64(buf: seq<byte>, r: Reference): Read<nat> {
    ReadUnsigned(buf, r.pos, r.parentWidth)
  }

  function AsBool(buf: seq<byte>, r: Reference): Read<bool> {
    var u :- ReadUnsigned(buf, r.pos, r.parentWidth);
    Got(u != 0)
  }

  /** read_size: the size lies before the data. */
  function ReadSize(buf: seq<byte>, data: int, width: nat): Read<nat> {
    ReadUnsigned(buf, data - width, width)
  }

  /** AsString().str(). */
  function AsString(buf: seq<byte>, r: Reference): Read<seq<byte>> {
    var data :- Indirect(buf, r.pos, r.parentWidth);
    var size :- ReadSize(buf, data, r.byteWidth);
    ReadBytes(buf, data, size)
  }

  /** Vector::operator[] of the vector whose data is at a position: elements, and behind them their types. */
  function Elem(buf: seq<byte>, data: int, width: nat, i: nat): Read<Reference> {
    var size :- ReadSize(buf, data, width);
    if i >= size then Got(NULL_REFERENCE)
    else
      var packed :- ReadUnsigned(buf, data + size * width + i, 1);
      Got(FromPacked(data + i * width, width, packed))
  }

  /** Map::Keys(): the position of the key vector's data, and its width. */
  function MapKeys(buf: seq<byte>, data: int, width: nat): Read<(int, nat)> {
    var keys :- Indirect(buf, data - 3 * width, width);
    var keysWidth :- ReadUnsigned(buf, data - 2 * width, width);
    Got((keys, keysWidth))
  }

  /** A C string: the bytes before the first zero. */
  function CString(buf: seq<byte>, pos: int): Read<seq<byte>>
    decreases |buf| - pos
  {
    if !(0 <= pos < |buf|) then Fault
    else if buf[pos] == 0 then Got([])
    else
      var rest :- CString(buf, pos + 1);
      Got([buf[pos]] + rest)
  }

  /** The i-th key of a key vector. */
  function KeyAt(buf: seq<byte>, keys: int, width: nat, i: nat): Read<seq<byte>> {
    var p :- Indirect(buf, keys + i * width, width);
    CString(buf, p)
  }

  /** GetRoot: the last byte is the root's width, the one before it its type. */
  function RootReference(buf: seq<byte>): Read<Reference> {
    var width :- ReadUnsigned(buf, |buf| - 1, 1);
    var packed :- ReadUnsigned(buf, |buf| - 2, 1);
    Got(FromPacked(|buf| - 2 - width, width, packed))
  }

  // ----- values

  datatype Value =
    | Null
    | Bool(b: bool)
    | Int(i: int)
    | UInt(u: nat)
    | Str(s: seq<byte>)
    | Vec(elems: seq<Value>)
    | Map(keys: seq<seq<byte>>, values: seq<Value>)

  /** What the accessors of a reference return, all the way down, is the value. */
  ghost predicate Reads(buf: seq<byte>, r: Reference, v: Value)
    decreases v, 1
  {
    match v
    case Null => r.type_ == FBT_NULL
    case Bool(b) => r.type_ == FBT_BOOL && AsBool(buf, r) == Got(b)
    case Int(i) => r.type_ == FBT_INT && AsInt64(buf, r) == Got(i)
    case UInt(u) => r.type_ == FBT_UINT && AsUInt64(buf, r) == Got(u)
    case Str(s) => r.type_ == FBT_STRING && AsString(buf, r) == Got(s)
    case Vec(_) =>
      && r.type_ == FBT_VECTOR
      && var data := Indirect(buf, r.pos, r.parentWidth);
      && data.Got? && VectorReads(buf, data.value, r.byteWidth, v)
    case Map(_, _) =>
      && r.type_ == FBT_MAP
      && var data := Indirect(buf, r.pos, r.parentWidth);
      && data.Got? && MapReads(buf, data.value, r.byteWidth, v)
  }

  ghost predicate VectorReads(buf: seq<byte>, data: int, width: nat, v: Value)
    requires v.Vec?
    decreases v, 0
  {
    && ReadSize(buf, data, width) == Got(|v.elems|)
    && forall i :: 0 <= i < |v.elems| ==>
         Elem(buf, data, width, i).Got? && Reads(buf, Elem(buf, data, width, i).value, v.elems[i])
  }

  ghost predicate MapReads(buf: seq<byte>, data: int, width: nat, v: Value)
    requires v.Map?
    decreases v, 0
  {
    && |v.keys| == |v.values|
    && ReadSize(buf, data, width) == Got(|v.values|)
    && (forall i :: 0 <= i < |v.values| ==>
          Elem(buf, data, width, i).Got? && Reads(buf, Elem(buf, data, width, i).value, v.values[i]))
    && MapKeys(buf, data, width).Got?
    && KeysRead(buf, MapKeys(buf, data, width).value.0, MapKeys(buf, data, width).value.1, v.keys)
  }

  ghost predicate KeysRead(buf: seq<byte>, keys: int, width: nat, ks: seq<seq<byte>>) {
    && ReadSize(buf, keys, width) == Got(|ks|)
    && forall i :: 0 <= i < |ks| ==> KeyAt(buf, keys, width, i) == Got(ks[i])
  }

  // ----- what is in the buffer stays readable when it grows at its end

  lemma ReadStays(buf: seq<byte>, more: seq<byte>, pos: int, n: nat)
    requires ReadUnsigned(buf, pos, n).Got?
    ensures ReadUnsigned(buf + more, pos, n) == ReadUnsigned(buf, pos, n)
  {
    assert (buf + more)[pos..pos + n] == buf[pos..pos + n];
  }

  lemma SignedStays(buf: seq<byte>, more: seq<byte>, pos: int, n: nat)
    requires ReadSigned(buf, pos, n).Got?
    ensures ReadSigned(buf + more, pos, n) == ReadSigned(buf, pos, n)
  {
    ReadStays(buf, more, pos, n);
  }

  lemma BytesStay(buf: seq<byte>, more: seq<byte>, pos: int, n: nat)
    requires ReadBytes(buf, pos, n).Got?
    ensures ReadBytes(buf + more, pos, n) == ReadBytes(buf, pos, n)
  {
    assert (buf + more)[pos..pos + n] == buf[pos..pos + n];
  }

  lemma {:induction false} CStringStays(buf: seq<byte>, more: seq<byte>, pos: int)
    requires CString(buf, pos).Got?
    ensures CString(buf + more, pos) == CString(buf, pos)
    decreases |buf| - pos
  {
    if buf[pos] != 0 {
      CStringStays(buf, more, pos + 1);
    }
  }

  lemma ElemStays(buf: seq<byte>, more: seq<byte>, data: int, width: nat, i: nat)
    requires Elem(buf, data, width, i).Got?
    ensures Elem(buf + more, data, width, i) == Elem(buf, data, width, i)
  {
    hide ReadUnsigned, FromPacked;
    ReadStays(buf, more, data - width, width);
    var size := ReadSize(buf, data, width).value;
    if i < size {
      ReadStays(buf, more, data + size * width + i, 1);
    }
  }

  lemma {:induction false} ValueStays(buf: seq<byte>, more: seq<byte>, r: Reference, v: Value)
    requires Reads(buf, r, v)
    ensures Reads(buf + more, r, v)
    decreases v, 1
  {
    hide ReadUnsigned, ReadSigned, ReadBytes, VectorReads, MapReads;
    match v
    case Null =>
    case Bool(_) => ReadStays(buf, more, r.pos, r.parentWidth);
    case Int(_) => SignedStays(buf, more, r.pos, r.parentWidth);
    case UInt(_) => ReadStays(buf, more, r.pos, r.parentWidth);
    case Str(_) =>
      ReadStays(buf, more, r.pos, r.parentWidth);
      var data := Indirect(buf, r.pos, r.parentWidth).value;
      ReadStays(buf, more, data - r.byteWidth, r.byteWidth);
      BytesStay(buf, more, data, ReadSize(buf, data, r.byteWidth).value);
    case Vec(_) =>
      ReadStays(buf, more, r.pos, r.parentWidth);
      VectorStays(buf, more, Indirect(buf, r.pos, r.parentWidth).value, r.byteWidth, v);
    case Map(_, _) =>
      ReadStays(buf, more, r.pos, r.parentWidth);
      MapStays(buf, more, Indirect(buf, r.pos, r.parentWidth).value, r.byteWidth, v);
  }

  lemma {:induction false} VectorStays(buf: seq<byte>, more: seq<byte>, data: int, width: nat, v: Value)
    requires v.Vec? && VectorReads(buf, data, width, v)
    ensures VectorReads(buf + more, data, width, v)
    decreases v, 0
  {
    hide ReadUnsigned, Elem;
    ReadStays(buf, more, data - width, width);
    forall i | 0 <= i < |v.elems|
      ensures Elem(buf + more, data, width, i).Got? && Reads(buf + more, Elem(buf + more, data, width, i).value, v.elems[i])
    {
      ElemStays(buf, more, data, width, i);
      ValueStays(buf, more, Elem(buf, data, width, i).value, v.elems[i]);
    }
  }

  lemma KeysStay(buf: seq<byte>, more: seq<byte>, keys: int, width: nat, ks: seq<seq<byte>>)
    requires KeysRead(buf, keys, width, ks)
    ensures KeysRead(buf + more, keys, width, ks)
  {
    hide ReadUnsigned, CString;
    ReadStays(buf, more, keys - width, width);
    forall i | 0 <= i < |ks|
      ensures KeyAt(buf + more, keys, width, i) == Got(ks[i])
    {
      assert KeyAt(buf, keys, width, i).Got?;
      ReadStays(buf, more, keys + i * width, width);
      CStringStays(buf, more, Indirect(buf, keys + i * width, width).value);
    }
  }

  lemma {:induction false} MapStays(buf: seq<byte>, more: seq<byte>, data: int, width: nat, v: Value)
    requires v.Map? && MapReads(buf, data, width, v)
    ensures MapReads(buf + more, data, width, v)
    decreases v, 0
  {
    hide ReadUnsigned, Elem, KeysRead;
    ReadStays(buf, more, data - width, width);
    ReadStays(buf, more, data - 3 * width, width);
    ReadStays(buf, more, data - 2 * width, width);
    KeysStay(buf, more, MapKeys(buf, data, width).value.0, MapKeys(buf, data, width).value.1, v.keys);
    forall i | 0 <= i < |v.values|
      ensures Elem(buf + more, data, width, i).Got? && Reads(buf + more, Elem(buf + more, data, width, i).value, v.values[i])
    {
      ElemStays(buf, more, data, width, i);
      ValueStays(buf, more, Elem(buf, data, width, i).value, v.values[i]);
    }
  }
}
