/**
 * Reading tables, as table.h, string.h and buffer.h do. A pointer is a position in the buffer;
 * a read that would touch a byte outside the buffer gives Fault instead of a value.
 */
module FlatReader {
  import opened Bytes
  import opened Common

  datatype Read<+T> = Fault | Got(value: T)
  {
    predicate IsFailure() {
      Fault?
    }

    function PropagateFailure<U>(): Read<U>
      requires Fault?
    {
      Fault
    }

    function Extract(): T
      requires Got?
    {
      value
    }
  }

  function ReadBytes(buf: seq<byte>, pos: int, n: nat): Read<seq<byte>> {
    if 0 <= pos && pos + n <= |buf| then Got(buf[pos..pos + n]) else Fault
  }

  /** ReadScalar of an unsigned n-byte type. */
  function ReadUnsigned(buf: seq<byte>, pos: int, n: nat): (r: Read<nat>)
    ensures r.Got? ==> r.value < Pow256(n)
  {
    var s :- ReadBytes(buf, pos, n);
    UnLeBound(s);
    Got(UnLe(s))
  }

  /** ReadScalar of a signed n-byte type. */
  function ReadSigned(buf: seq<byte>, pos: int, n: nat): Read<int> {
    var u :- ReadUnsigned(buf, pos, n);
    Got(ToSigned(u, n))
  }

  /** The vtable lies at a signed distance before the table; the distance is the table's first scalar. */
  function GetVTable(buf: seq<byte>, table: int): Read<int> {
    var distance :- ReadSigned(buf, table, 4);
    Got(table - distance)
  }

  /** Where a field is stored relative to its table, or 0 when the vtable does not list it. */
  function GetOptionalFieldOffset(buf: seq<byte>, table: int, field: nat): Read<nat> {
    var vtable :- GetVTable(buf, table);
    var vtsize :- ReadUnsigned(buf, vtable, 2);
    if field < vtsize then ReadUnsigned(buf, vtable + field, 2) else Got(0)
  }

  /** GetField of an unsigned n-byte type. */
  function GetField(buf: seq<byte>, table: int, field: nat, n: nat, default: nat): Read<nat> {
    var offset :- GetOptionalFieldOffset(buf, table, field);
    if offset == 0 then Got(default) else ReadUnsigned(buf, table + offset, n)
  }

  /** GetField of a signed n-byte type. */
  function GetSignedField(buf: seq<byte>, table: int, field: nat, n: nat, default: int): Read<int> {
    var offset :- GetOptionalFieldOffset(buf, table, field);
    if offset == 0 then Got(default) else ReadSigned(buf, table + offset, n)
  }

  /** GetPointer: the position a field's offset leads to; the offset is relative to where it is stored. */
  function GetPointer(buf: seq<byte>, table: int, field: nat): (r: Read<Option<int>>)
    ensures r.Got? && r.value.Some? ==> 0 <= table < |buf| && r.value.value > table
  {
    var offset :- GetOptionalFieldOffset(buf, table, field);
    if offset == 0 then Got(None)
    else
      var distance :- ReadUnsigned(buf, table + offset, 4);
      Got(Some(table + offset + distance))
  }

  /** c_str() of a string, terminator included: the size prefix, then that many bytes and one more. */
  function ReadCString(buf: seq<byte>, str: int): (r: Read<seq<byte>>)
    ensures r.Got? ==> |r.value| > 0
  {
    var size :- ReadUnsigned(buf, str, 4);
    ReadBytes(buf, str + 4, size + 1)
  }

  /** str() of a string field; None for an absent field, whose String pointer is null. */
  function GetStringField(buf: seq<byte>, table: int, field: nat): Read<Option<seq<byte>>> {
    var p :- GetPointer(buf, table, field);
    match p
    case None => Got(None)
    case Some(str) =>
      var s :- ReadCString(buf, str);
      Got(Some(s[..|s| - 1]))
  }

  /** GetRoot: the buffer starts with the offset of its root table. */
  function GetRoot(buf: seq<byte>): Read<int> {
    ReadUnsigned(buf, 0, 4)
  }

  /** GetSizePrefixedRoot: the same behind a four-byte size. */
  function GetSizePrefixedRoot(buf: seq<byte>): Read<int> {
    var distance :- ReadUnsigned(buf, 4, 4);
    Got(4 + distance)
  }
}
