/** The accessors of table.h read back exactly what an object of the buffer holds. */
module FlatAccess {
  import opened Bytes
  import opened Common
  import opened FlatReader
  import opened FlatObjects

  lemma ReadsDataAt(buf: seq<byte>, off: nat, n: nat)
    requires n <= off <= |buf|
    ensures ReadBytes(buf, |buf| - off, n) == Got(DataAt(buf, off, n))
    ensures ReadUnsigned(buf, |buf| - off, n) == Got(UnLe(DataAt(buf, off, n)))
  {}

  /** The vtable lookup of any field finds its slot, whether the field is stored or not. */
  lemma ReadsSlot(buf: seq<byte>, off: nat, fields: map<nat, Field>, id: nat, align: nat)
    requires ObjAt(buf, off, VTable(fields), align) && IsFieldId(id)
    ensures GetOptionalFieldOffset(buf, |buf| - off, id) == Got(SlotAt(buf, VTableOf(buf, off), id))
  {
    var vt := VTableOf(buf, off);
    assert ReadSigned(buf, |buf| - off, 4) == Got(vt - off) by {
      ReadsDataAt(buf, off, 4);
    }
    ReadsSlotOf(buf, |buf| - off, vt, id);
  }

  lemma ReadsSlotOf(buf: seq<byte>, table: int, vt: nat, id: nat)
    requires VTableAt(buf, vt) && IsFieldId(id)
    requires GetVTable(buf, table) == Got(|buf| - vt)
    ensures GetOptionalFieldOffset(buf, table, id) == Got(SlotAt(buf, vt, id))
  {
    ReadsDataAt(buf, vt, 2);
    if id < UnLe(DataAt(buf, vt, 2)) {
      ReadsDataAt(buf, vt - id, 2);
      assert |buf| - vt + id == |buf| - (vt - id);
    }
  }

  lemma ReadsAbsent(buf: seq<byte>, off: nat, fields: map<nat, Field>, id: nat, align: nat)
    requires ObjAt(buf, off, VTable(fields), align) && IsFieldId(id) && id !in fields
    ensures GetOptionalFieldOffset(buf, |buf| - off, id) == Got(0)
  {
    ReadsSlot(buf, off, fields, id, align);
  }

  /** A stored scalar reads as the value of its bytes; one that is not stored reads as the default. */
  lemma ReadsScalar(buf: seq<byte>, off: nat, fields: map<nat, Field>, id: nat, n: nat, default: nat, align: nat)
    requires ObjAt(buf, off, VTable(fields), align) && IsFieldId(id)
    requires id in fields ==> fields[id].Scalar? && |fields[id].bytes| == n
    ensures GetField(buf, |buf| - off, id, n, default)
         == Got(if id in fields then UnLe(fields[id].bytes) else default)
  {
    hide ObjAt, FieldAt, GetOptionalFieldOffset, UnLe, ReadUnsigned;
    if id in fields {
      var slot, at := FieldPosition(buf, off, fields, id, align);
      ScalarIsRead(buf, at, fields[id], align);
      assert |buf| - off + slot == |buf| - at;
    } else {
      ReadsAbsent(buf, off, fields, id, align);
    }
  }

  lemma ScalarIsRead(buf: seq<byte>, at: nat, f: Field, align: nat)
    requires f.Scalar? && FieldAt(buf, at, f, align)
    ensures ReadUnsigned(buf, |buf| - at, |f.bytes|) == Got(UnLe(f.bytes))
  {
    hide Aligned, UnLe, ReadUnsigned;
    ReadsDataAt(buf, at, |f.bytes|);
  }

  lemma ReadsSignedScalar(buf: seq<byte>, off: nat, fields: map<nat, Field>, id: nat, n: nat, default: int, align: nat)
    requires ObjAt(buf, off, VTable(fields), align) && IsFieldId(id)
    requires id in fields ==> fields[id].Scalar? && |fields[id].bytes| == n
    ensures id in fields ==> UnLe(fields[id].bytes) < Pow256(n)
    ensures GetSignedField(buf, |buf| - off, id, n, default)
         == Got(if id in fields then ToSigned(UnLe(fields[id].bytes), n) else default)
  {
    ReadsSlot(buf, off, fields, id, align);
    ReadsScalar(buf, off, fields, id, n, 0, align);
    if id in fields {
      UnLeBound(fields[id].bytes);
    }
  }

  /** A stored offset leads to the object it was made to refer to. */
  lemma ReadsRef(buf: seq<byte>, off: nat, fields: map<nat, Field>, id: nat, align: nat) returns (target: nat)
    requires ObjAt(buf, off, VTable(fields), align)
    requires id in fields && fields[id].Ref?
    ensures target < off && ObjAt(buf, target, fields[id].target, align)
    ensures GetPointer(buf, |buf| - off, id) == Got(Some(|buf| - target))
  {
    var slot, at := FieldPosition(buf, off, fields, id, align);
    target := FollowRef(buf, off, fields[id].target, id, align, slot, at);
  }

  lemma FollowRef(buf: seq<byte>, off: nat, v: Value, id: nat, align: nat, slot: nat, at: nat) returns (target: nat)
    requires 0 < slot < off && at == off - slot && FieldAt(buf, at, Ref(v), align)
    requires GetOptionalFieldOffset(buf, |buf| - off, id) == Got(slot)
    ensures target < off && ObjAt(buf, target, v, align)
    ensures GetPointer(buf, |buf| - off, id) == Got(Some(|buf| - target))
  {
    hide ObjAt, Aligned, UnLe, GetOptionalFieldOffset;
    var distance: nat := UnLe(DataAt(buf, at, 4));
    ReadsDataAt(buf, at, 4);
    target := at - distance;
    assert |buf| - off + slot == |buf| - at;
  }

  lemma FieldPosition(buf: seq<byte>, off: nat, fields: map<nat, Field>, id: nat, align: nat) returns (slot: nat, at: nat)
    requires ObjAt(buf, off, VTable(fields), align) && id in fields
    ensures 0 < slot < off && at == off - slot && FieldAt(buf, at, fields[id], align)
    ensures GetOptionalFieldOffset(buf, |buf| - off, id) == Got(slot)
  {
    ReadsSlot(buf, off, fields, id, align);
    slot := SlotAt(buf, VTableOf(buf, off), id);
    at := off - slot;
  }

  lemma ReadsCString(buf: seq<byte>, off: nat, chars: seq<byte>, align: nat)
    requires ObjAt(buf, off, VString(chars), align)
    ensures ReadUnsigned(buf, |buf| - off, 4) == Got(|chars|)
    ensures ReadCString(buf, |buf| - off) == Got(chars + [0])
  {
    hide Aligned, Le, UnLe, LowBits;
    var s := Le(|chars|, 4) + chars + [0];
    LeRoundTrip(|chars|, 4);
    assert DataAt(buf, off, 4) == DataAt(buf, off, |s|)[..4] == Le(|chars|, 4);
    ReadsDataAt(buf, off, 4);
    ReadsDataAt(buf, off - 4, |chars| + 1);
    assert DataAt(buf, off - 4, |chars| + 1) == DataAt(buf, off, |s|)[4..] == chars + [0];
    assert |buf| - (off - 4) == |buf| - off + 4;
  }
}
