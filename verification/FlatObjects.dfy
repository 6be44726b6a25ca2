/**
 * What the bytes of a partly built buffer mean. The builder grows a buffer at its front, so an object
 * is named by its offset from the end of the data, which never changes while the buffer grows.
 */
module FlatObjects {
  import opened Bytes
  import opened FlatReader

  datatype Value =
    | VString(chars: seq<byte>)
    | VTable(fields: map<nat, Field>)

  /** A stored field: the bytes of a scalar, or the object an offset leads to. */
  datatype Field =
    | Scalar(bytes: seq<byte>)
    | Ref(target: Value)

  /** Field ids are vtable offsets: two-byte slots after the two fixed ones. */
  predicate IsFieldId(id: nat) {
    4 <= id && id % 2 == 0
  }

  /** The n bytes that start off bytes before the end: what data_at(off) points to. */
  function DataAt(data: seq<byte>, off: nat, n: nat): (s: seq<byte>)
    requires n <= off <= |data|
    ensures |s| == n
  {
    data[|data| - off..|data| - off + n]
  }

  predicate At(data: seq<byte>, off: nat, s: seq<byte>) {
    |s| <= off <= |data| && DataAt(data, off, |s|) == s
  }

  predicate VTableAt(data: seq<byte>, vt: int) {
    && 4 <= vt <= |data|
    && Aligned(vt, 2)
    && var size := UnLe(DataAt(data, vt, 2));
    && 4 <= size <= vt
    && size % 2 == 0
  }

  /** The vtable entry of a field: where its value lies in the table, or 0 when it is absent. */
  function SlotAt(data: seq<byte>, vt: nat, id: nat): nat
    requires VTableAt(data, vt) && IsFieldId(id)
  {
    if id < UnLe(DataAt(data, vt, 2)) then UnLe(DataAt(data, vt - id, 2)) else 0
  }

  function VTableOf(data: seq<byte>, off: nat): int
    requires 4 <= off <= |data|
  {
    UnLeBound(DataAt(data, off, 4));
    off + ToSigned(UnLe(DataAt(data, off, 4)), 4)
  }

  /** The object at off is v, and everything in it is aligned to scalars of at most align bytes. */
  ghost predicate ObjAt(data: seq<byte>, off: nat, v: Value, align: nat)
    decreases v
  {
    && 4 <= align
    && 4 <= off <= |data|
    && Aligned(off, 4)
    && match v
       case VString(chars) =>
         |chars| < Pow256(4) && At(data, off, Le(|chars|, 4) + chars + [0])
       case VTable(fields) =>
         && var vt := VTableOf(data, off);
         && VTableAt(data, vt)
         && (forall id | id in fields ::
               && IsFieldId(id)
               && 0 < SlotAt(data, vt, id) < off
               && FieldAt(data, off - SlotAt(data, vt, id), fields[id], align))
         && (forall id: nat | IsFieldId(id) && id !in fields :: SlotAt(data, vt, id) == 0)
  }

  ghost predicate FieldAt(data: seq<byte>, off: nat, f: Field, align: nat)
    decreases f
  {
    match f
    case Scalar(bytes) =>
      IsAlignment(|bytes|) && |bytes| <= align && Aligned(off, |bytes|) && At(data, off, bytes)
    case Ref(v) =>
      && 4 <= off <= |data|
      && Aligned(off, 4)
      && var distance := UnLe(DataAt(data, off, 4));
      && 0 < distance <= off
      && ObjAt(data, off - distance, v, align)
  }

  lemma DataAtGrows(front: seq<byte>, data: seq<byte>, off: nat, n: nat)
    requires n <= off <= |data|
    ensures DataAt(front + data, off, n) == DataAt(data, off, n)
  {}

  lemma VTableGrows(front: seq<byte>, data: seq<byte>, vt: int)
    requires VTableAt(data, vt)
    ensures VTableAt(front + data, vt)
    ensures forall id: nat | IsFieldId(id) :: SlotAt(front + data, vt, id) == SlotAt(data, vt, id)
  {
    DataAtGrows(front, data, vt, 2);
    forall id: nat | IsFieldId(id)
      ensures SlotAt(front + data, vt, id) == SlotAt(data, vt, id)
    {
      if id < UnLe(DataAt(data, vt, 2)) {
        DataAtGrows(front, data, vt - id, 2);
      }
    }
  }

  /** Growing the buffer at its front changes no object in it. */
  lemma {:induction false} ObjGrows(front: seq<byte>, data: seq<byte>, off: nat, v: Value, align: nat, align': nat)
    requires ObjAt(data, off, v, align) && align <= align'
    ensures ObjAt(front + data, off, v, align')
    decreases v
  {
    hide Aligned, Le, DataAt;
    match v
    case VString(chars) =>
      DataAtGrows(front, data, off, |Le(|chars|, 4) + chars + [0]|);
    case VTable(fields) =>
      DataAtGrows(front, data, off, 4);
      var vt := VTableOf(data, off);
      VTableGrows(front, data, vt);
      forall id | id in fields
        ensures FieldAt(front + data, off - SlotAt(data, vt, id), fields[id], align')
      {
        FieldGrows(front, data, off - SlotAt(data, vt, id), fields[id], align, align');
      }
  }

  lemma {:induction false} FieldGrows(front: seq<byte>, data: seq<byte>, off: nat, f: Field, align: nat, align': nat)
    requires FieldAt(data, off, f, align) && align <= align'
    ensures FieldAt(front + data, off, f, align')
    decreases f
  {
    hide Aligned, DataAt;
    match f
    case Scalar(bytes) =>
      DataAtGrows(front, data, off, |bytes|);
    case Ref(v) =>
      DataAtGrows(front, data, off, 4);
      ObjGrows(front, data, off - UnLe(DataAt(data, off, 4)), v, align, align');
  }

  lemma ObjInside(data: seq<byte>, off: nat, v: Value, align: nat)
    requires ObjAt(data, off, v, align)
    ensures 4 <= off <= |data| && 4 <= align
  {}
}
