/**
 * JSON Patch, RFC 6902, as patch_inplace interprets it. A failing operation throws, and leaves behind what
 * the operations before it, and its own first half, have done.
 */
module JsonPatch {
  import opened Common
  import opened Json
  import opened JsonEscape
  import opened JsonPointer

  datatype Outcome = Done(doc: JSON) | Failed(doc: JSON, error: Error)

  // ----- the operations at the parent of the location

  /** operation_add on the parent; a parent that is null becomes an object. */
  function AddChild(parent: JSON, last: string, val: JSON): Result<JSON> {
    match parent
    case Null => Ok(Obj(map[last := val]))
    case Obj(members) => Ok(Obj(members[last := val]))
    case Arr(elems) =>
      if last == "-" then Ok(Arr(elems + [val]))
      else
        var idx :- ArrayIndex(last);
        if idx > |elems| then Throw(OutOfRange(401))
        else Ok(Arr(elems[..idx] + [val] + elems[idx..]))
    case _ => Throw(AssertionFailed)
  }

  /** operation_remove on the parent; a parent that is neither object nor array is left alone. */
  function RemoveChild(parent: JSON, last: string): Result<JSON> {
    match parent
    case Obj(members) =>
      if last in members then Ok(Obj(members - {last})) else Throw(OutOfRange(403))
    case Arr(elems) =>
      var idx :- ArrayIndex(last);
      if idx >= |elems| then Throw(OutOfRange(401))
      else Ok(Arr(elems[..idx] + elems[idx + 1..]))
    case _ => Ok(parent)
  }

  // ----- the operations on a document

  function Add(doc: JSON, ptr: seq<string>, val: JSON): Result<JSON> {
    if ptr == [] then Ok(val)
    else if |ptr| > 1 && At(doc, ptr[..1]).Throw? then Throw(At(doc, ptr[..1]).error)
    else
      var parent :- At(doc, ptr[..|ptr| - 1]);
      var changed :- AddChild(parent, ptr[|ptr| - 1], val);
      Ok(Put(doc, ptr[..|ptr| - 1], changed))
  }

  function Remove(doc: JSON, ptr: seq<string>): Result<JSON> {
    if ptr == [] then Throw(OutOfRange(405))
    else
      var parent :- At(doc, ptr[..|ptr| - 1]);
      var changed :- RemoveChild(parent, ptr[|ptr| - 1]);
      Ok(Put(doc, ptr[..|ptr| - 1], changed))
  }

  function Replace(doc: JSON, ptr: seq<string>, val: JSON): Result<JSON> {
    var _ :- At(doc, ptr);
    Ok(Put(doc, ptr, val))
  }

  /** get_value: a member of an operation, which must be there and may have to be a string. */
  function GetValue(val: map<string, JSON>, member: string): Result<JSON> {
    if member in val then Ok(val[member]) else Throw(ParseError(105))
  }

  function GetString(val: map<string, JSON>, member: string): Result<string> {
    var v :- GetValue(val, member);
    if v.Str? then Ok(v.s) else Throw(ParseError(105))
  }

  function Finished(doc: JSON, r: Result<JSON>): Outcome {
    match r
    case Ok(changed) => Done(changed)
    case Throw(e) => Failed(doc, e)
  }

  function MoveTo(doc: JSON, from: seq<string>, ptr: seq<string>): Outcome {
    match At(doc, from)
    case Throw(e) => Failed(doc, e)
    case Ok(v) =>
      match Remove(doc, from)
      case Throw(e) => Failed(doc, e)
      case Ok(removed) => Finished(removed, Add(removed, ptr, v))
  }

  function CopyTo(doc: JSON, from: seq<string>, ptr: seq<string>): Outcome {
    match At(doc, from)
    case Throw(e) => Failed(doc, e)
    case Ok(v) => Finished(doc, Add(doc, ptr, v))
  }

  /** The from member of move and copy. */
  function FromPointer(val: map<string, JSON>): Result<seq<string>> {
    var from :- GetString(val, "from");
    Split(from)
  }

  /** test: a location that cannot be resolved is a failed test, but a token that is no index is an error of its own. */
  function Test(doc: JSON, ptr: seq<string>, val: map<string, JSON>): (r: Outcome)
    ensures r.doc == doc
    ensures r.Done? <==> "value" in val && At(doc, ptr) == Ok(val["value"])
  {
    match At(doc, ptr)
    case Throw(OutOfRange(_)) => Failed(doc, OtherError(501))
    case Throw(e) => Failed(doc, e)
    case Ok(v) =>
      match GetValue(val, "value")
      case Throw(e) => Failed(doc, e)
      case Ok(expected) => if v == expected then Done(doc) else Failed(doc, OtherError(501))
  }

  function WithValue(doc: JSON, val: map<string, JSON>, f: JSON -> Result<JSON>): Outcome {
    match GetValue(val, "value")
    case Throw(e) => Failed(doc, e)
    case Ok(v) => Finished(doc, f(v))
  }

  function Dispatch(doc: JSON, op: string, ptr: seq<string>, val: map<string, JSON>): Outcome {
    if op == "add" then WithValue(doc, val, v => Add(doc, ptr, v))
    else if op == "remove" then Finished(doc, Remove(doc, ptr))
    else if op == "replace" then WithValue(doc, val, v => Replace(doc, ptr, v))
    else if op == "move" then
      match FromPointer(val)
      case Throw(e) => Failed(doc, e)
      case Ok(from) => MoveTo(doc, from, ptr)
    else if op == "copy" then
      match FromPointer(val)
      case Throw(e) => Failed(doc, e)
      case Ok(from) => CopyTo(doc, from, ptr)
    else if op == "test" then Test(doc, ptr, val)
    else Failed(doc, ParseError(105))
  }

  /** The mandatory members, in the order they are looked up. */
  function Header(val: JSON): Result<(string, seq<string>)> {
    match val
    case Obj(members) =>
      var op :- GetString(members, "op");
      var path :- GetString(members, "path");
      var ptr :- Split(path);
      Ok((op, ptr))
    case _ => Throw(ParseError(104))
  }

  function Apply(doc: JSON, val: JSON): Outcome {
    match Header(val)
    case Throw(e) => Failed(doc, e)
    case Ok((op, ptr)) => Dispatch(doc, op, ptr, if val.Obj? then val.members else map[])
  }

  function ApplyAll(doc: JSON, ops: seq<JSON>): Outcome
    decreases |ops|
  {
    if ops == [] then Done(doc)
    else
      match Apply(doc, ops[0])
      case Done(next) => ApplyAll(next, ops[1..])
      case Failed(d, e) => Failed(d, e)
  }

  function PatchInPlace(doc: JSON, patch: JSON): Outcome {
    match patch
    case Arr(ops) => ApplyAll(doc, ops)
    case _ => Failed(doc, ParseError(104))
  }

  /** patch: works on a copy, so a failing patch changes nothing. */
  function Patch(doc: JSON, patch: JSON): Result<JSON> {
    match PatchInPlace(doc, patch)
    case Done(d) => Ok(d)
    case Failed(_, e) => Throw(e)
  }

  /** Operations one after the other: what the first leaves, the second starts from. */
  lemma {:induction false} ApplyConcat(doc: JSON, ops: seq<JSON>, more: seq<JSON>)
    ensures ApplyAll(doc, ops + more) == match ApplyAll(doc, ops) { case Done(d) => ApplyAll(d, more) case Failed(d, e) => Failed(d, e) }
    decreases |ops|
  {
    hide Apply;
    if ops == [] {
      assert [] + more == more;
    } else {
      assert (ops + more)[1..] == ops[1..] + more;
      match Apply(doc, ops[0])
      case Done(next) => ApplyConcat(next, ops[1..], more);
      case Failed(_, _) =>
    }
  }

  // ----- operations as documents

  function ReplaceOp(path: string, v: JSON): JSON {
    Obj(map["op" := Str("replace"), "path" := Str(path), "value" := v])
  }

  function AddOp(path: string, v: JSON): JSON {
    Obj(map["op" := Str("add"), "path" := Str(path), "value" := v])
  }

  function RemoveOp(path: string): JSON {
    Obj(map["op" := Str("remove"), "path" := Str(path)])
  }

  function MoveOp(from: string, path: string): JSON {
    Obj(map["op" := Str("move"), "from" := Str(from), "path" := Str(path)])
  }

  function CopyOp(from: string, path: string): JSON {
    Obj(map["op" := Str("copy"), "from" := Str(from), "path" := Str(path)])
  }

  function TestOp(path: string, v: JSON): JSON {
    Obj(map["op" := Str("test"), "path" := Str(path), "value" := v])
  }

  // ----- where the code departs from RFC 6902

  /** Section 4.1 and 4.2: the location's parent must be an object or an array for add and remove to succeed. */
  predicate IsContainer(j: JSON) {
    j.Obj? || j.Arr?
  }

  /**
   * Removing below a value that is neither object nor array succeeds and removes nothing, for example
   * /a/b of {"a": 1}; below a container it takes exactly one child away or fails.
   */
  lemma RemoveBelowPrimitive(doc: JSON, ptr: seq<string>)
    requires ptr != [] && At(doc, ptr[..|ptr| - 1]).Ok?
    ensures !IsContainer(At(doc, ptr[..|ptr| - 1]).value) ==> Remove(doc, ptr) == Ok(doc)
    ensures IsContainer(At(doc, ptr[..|ptr| - 1]).value) && Remove(doc, ptr).Ok? ==> At(doc, ptr).Ok? && Remove(doc, ptr) != Ok(doc)
  {
    var front, last := ptr[..|ptr| - 1], ptr[|ptr| - 1];
    var parent := At(doc, front).value;
    PutLaws(doc, front, parent, parent);
    if IsContainer(parent) && Remove(doc, ptr).Ok? {
      assert front + [last] == ptr;
      AtSnoc(doc, front, last);
      var changed := RemoveChild(parent, last).value;
      PutLaws(doc, front, changed, changed);
      if parent.Arr? {
        IndexIsCanonical(last);
      }
    }
  }

  /** Adding below a value that is neither object, array nor null runs into an assertion the code holds to be unreachable. */
  lemma AddBelowPrimitive(doc: JSON, ptr: seq<string>, val: JSON)
    requires ptr != []
    ensures Add(doc, ptr, val) == Throw(AssertionFailed) <==>
      At(doc, ptr[..|ptr| - 1]).Ok? && !IsContainer(At(doc, ptr[..|ptr| - 1]).value) && !At(doc, ptr[..|ptr| - 1]).value.Null?
  {
    AtAsserts(doc, ptr[..1]);
    AtAsserts(doc, ptr[..|ptr| - 1]);
    IndexAsserts(ptr[|ptr| - 1]);
    hide At, Put, ArrayIndex;
    if At(doc, ptr[..|ptr| - 1]).Ok? {
      ParentExists(doc, ptr);
    }
  }

  /** Adding below null makes it an object; no other value that is no container can be added to. */
  lemma AddBelowNull(doc: JSON, ptr: seq<string>, val: JSON)
    requires ptr != [] && At(doc, ptr[..|ptr| - 1]).Ok? && !IsContainer(At(doc, ptr[..|ptr| - 1]).value)
    ensures Add(doc, ptr, val).Ok? <==> At(doc, ptr[..|ptr| - 1]).value.Null?
    ensures Add(doc, ptr, val).Ok? ==>
      At(Add(doc, ptr, val).value, ptr) == Ok(val) && At(Add(doc, ptr, val).value, ptr[..|ptr| - 1]) == Ok(Obj(map[ptr[|ptr| - 1] := val]))
  {
    hide Add, At, Put;
    var front, last := ptr[..|ptr| - 1], ptr[|ptr| - 1];
    assert front + [last] == ptr;
    AddIs(doc, ptr, val);
    var made := Obj(map[last := val]);
    PutLaws(doc, front, made, made);
    AtSnoc(Put(doc, front, made), front, last);
  }

  /** The pointer /a/b. */
  lemma SplitAB()
    ensures Split("/a/b") == Ok(["a", "b"])
  {
    EscapeLetter('a');
    EscapeLetter('b');
    hide Split, Escape;
    EmptyPath();
    assert "a" == ['a'] && "b" == ['b'] && "/a" == "" + "/" + "a" && "/a/b" == "/a" + "/" + "b";
    assert [] + ["a"] == ["a"] && ["a"] + ["b"] == ["a", "b"];
    SplitExtends("", [], "a");
    SplitExtends("/a", ["a"], "b");
  }

  lemma EscapeLetter(c: char)
    requires c != '~' && c != '/'
    ensures Escape([c]) == [c]
  {
    EscapeHead(c, "");
    assert [c] + "" == [c];
  }

  /** On {"a": 1}, remove of /a/b succeeds and does nothing, and add of /a/b runs into the assertion. */
  lemma BelowNumber(val: JSON)
    ensures var doc := Obj(map["a" := Int(1)]);
      && Apply(doc, RemoveOp("/a/b")) == Done(doc)
      && Apply(doc, AddOp("/a/b", val)) == Failed(doc, AssertionFailed)
  {
    hide Split, Add, Remove, At;
    var doc := Obj(map["a" := Int(1)]);
    SplitAB();
    ParentA(doc);
    RemoveBelowPrimitive(doc, ["a", "b"]);
    AddBelowPrimitive(doc, ["a", "b"], val);
  }

  /** On {"a": null}, add of /a/b makes an object of the null. */
  lemma BelowNull(val: JSON)
    ensures Apply(Obj(map["a" := Null]), AddOp("/a/b", val)) == Done(Obj(map["a" := Obj(map["b" := val])]))
  {
    var doc := Obj(map["a" := Null]);
    SplitAB();
    ParentA(doc);
    AddIs(doc, ["a", "b"], val);
    assert Put(doc, ["a"], Obj(map["b" := val])) == Obj(map["a" := Obj(map["b" := val])]) by {
      assert ["a"][1..] == [];
    }
    hide Split, Add, At, Put;
  }

  lemma ParentA(doc: JSON)
    requires doc.Obj? && "a" in doc.members
    ensures ["a", "b"][..1] == ["a"] && At(doc, ["a"]) == Ok(doc.members["a"])
  {
    assert ["a"][1..] == [];
  }

  lemma IndexAsserts(s: string)
    ensures ArrayIndex(s) != Throw(AssertionFailed)
  {}

  lemma {:induction false} AtAsserts(doc: JSON, ptr: seq<string>)
    ensures At(doc, ptr) != Throw(AssertionFailed)
    decreases |ptr|
  {
    if ptr != [] && Child(doc, ptr[0]).Ok? {
      AtAsserts(Child(doc, ptr[0]).value, ptr[1..]);
    }
  }

  lemma TopExists(doc: JSON, ptr: seq<string>)
    requires ptr != [] && At(doc, ptr).Ok?
    ensures At(doc, [ptr[0]]).Ok?
  {
    hide Child;
    assert [ptr[0]][1..] == [];
  }

  // ----- what the operations do to each other

  /** Nothing is at the last token yet: a new key, or a place in an array before which the value goes. */
  predicate IsFresh(doc: JSON, ptr: seq<string>) {
    ptr != [] &&
    match At(doc, ptr[..|ptr| - 1])
    case Ok(Obj(members)) => ptr[|ptr| - 1] !in members
    case Ok(Arr(_)) => ptr[|ptr| - 1] != "-"
    case _ => false
  }

  lemma ParentExists(doc: JSON, ptr: seq<string>)
    requires ptr != [] && At(doc, ptr[..|ptr| - 1]).Ok?
    ensures |ptr| > 1 ==> At(doc, ptr[..1]).Ok?
  {
    if |ptr| > 1 {
      assert ptr[..1] == [ptr[..|ptr| - 1][0]];
      TopExists(doc, ptr[..|ptr| - 1]);
    }
  }

  /** What was added in a fresh place is read back there, and removing it restores the document. */
  lemma RemoveUndoesAdd(doc: JSON, ptr: seq<string>, val: JSON)
    requires IsFresh(doc, ptr) && Add(doc, ptr, val).Ok?
    ensures At(Add(doc, ptr, val).value, ptr) == Ok(val)
    ensures Remove(Add(doc, ptr, val).value, ptr) == Ok(doc)
  {
    var front, last := ptr[..|ptr| - 1], ptr[|ptr| - 1];
    assert front + [last] == ptr;
    var parent := At(doc, front).value;
    var changed := AddChild(parent, last, val).value;
    ChildUndoesAdd(parent, last, val);
    PutLaws(doc, front, changed, parent);
    AtSnoc(Put(doc, front, changed), front, last);
  }

  lemma ChildUndoesAdd(parent: JSON, last: string, val: JSON)
    requires IsContainer(parent)
    requires if parent.Obj? then last !in parent.members else last != "-"
    requires AddChild(parent, last, val).Ok?
    ensures RemoveChild(AddChild(parent, last, val).value, last) == Ok(parent)
    ensures Child(AddChild(parent, last, val).value, last) == Ok(val)
  {
    if parent.Obj? {
      assert parent.members[last := val] - {last} == parent.members;
    } else {
      var i, elems := ArrayIndex(last).value, parent.elems;
      var longer := elems[..i] + [val] + elems[i..];
      assert longer[..i] + longer[i + 1..] == elems;
    }
  }

  /** What remove takes away was there, and adding it again restores the document. */
  lemma AddUndoesRemove(doc: JSON, ptr: seq<string>)
    requires ptr != [] && At(doc, ptr[..|ptr| - 1]).Ok? && IsContainer(At(doc, ptr[..|ptr| - 1]).value)
    requires Remove(doc, ptr).Ok?
    ensures At(doc, ptr).Ok?
    ensures Add(Remove(doc, ptr).value, ptr, At(doc, ptr).value) == Ok(doc)
  {
    var front, last := ptr[..|ptr| - 1], ptr[|ptr| - 1];
    assert front + [last] == ptr;
    var parent := At(doc, front).value;
    var changed := RemoveChild(parent, last).value;
    ChildUndoesRemove(parent, last);
    AtSnoc(doc, front, last);
    PutLaws(doc, front, changed, parent);
    ParentExists(Put(doc, front, changed), ptr);
  }

  lemma ChildUndoesRemove(parent: JSON, last: string)
    requires IsContainer(parent) && RemoveChild(parent, last).Ok?
    ensures Child(parent, last).Ok?
    ensures AddChild(RemoveChild(parent, last).value, last, Child(parent, last).value) == Ok(parent)
  {
    if parent.Obj? {
      assert (parent.members - {last})[last := parent.members[last]] == parent.members;
    } else {
      var i, elems := ArrayIndex(last).value, parent.elems;
      var shorter := elems[..i] + elems[i + 1..];
      assert shorter[..i] + [elems[i]] + shorter[i..] == elems;
    }
  }

  /** A value moved to a fresh place is there, and moving it back restores the document. */
  lemma MoveBack(doc: JSON, from: seq<string>, ptr: seq<string>)
    requires MoveTo(doc, from, ptr).Done? && IsFresh(Remove(doc, from).value, ptr)
    ensures At(MoveTo(doc, from, ptr).doc, ptr) == At(doc, from)
    ensures MoveTo(MoveTo(doc, from, ptr).doc, ptr, from) == Done(doc)
  {
    hide IsFresh, Remove, Add;
    var removed := Remove(doc, from).value;
    var v := At(doc, from).value;
    RemovedHasParent(doc, from);
    AddUndoesRemove(doc, from);
    RemoveUndoesAdd(removed, ptr, v);
  }

  /** A location that can be read lies in a container. */
  lemma RemovedHasParent(doc: JSON, ptr: seq<string>)
    requires Remove(doc, ptr).Ok? && At(doc, ptr).Ok?
    ensures ptr != [] && At(doc, ptr[..|ptr| - 1]).Ok? && IsContainer(At(doc, ptr[..|ptr| - 1]).value)
  {
    assert ptr[..|ptr| - 1] + [ptr[|ptr| - 1]] == ptr;
    AtSnoc(doc, ptr[..|ptr| - 1], ptr[|ptr| - 1]);
  }

  /** The check of the pointer's first token is part of finding the parent. */
  lemma AddIs(doc: JSON, ptr: seq<string>, val: JSON)
    requires ptr != []
    ensures Add(doc, ptr, val).Ok? <==>
      At(doc, ptr[..|ptr| - 1]).Ok? && AddChild(At(doc, ptr[..|ptr| - 1]).value, ptr[|ptr| - 1], val).Ok?
    ensures Add(doc, ptr, val).Ok? ==>
      Add(doc, ptr, val).value == Put(doc, ptr[..|ptr| - 1], AddChild(At(doc, ptr[..|ptr| - 1]).value, ptr[|ptr| - 1], val).value)
  {
    hide AddChild;
    if At(doc, ptr[..|ptr| - 1]).Ok? {
      ParentExists(doc, ptr);
    }
    hide At, Put;
  }

  /** Adding below a place is adding to the value there, and fails where nothing is there. */
  lemma AddBelow(doc: JSON, ptr: seq<string>, rest: seq<string>, val: JSON)
    requires rest != []
    ensures Add(doc, ptr + rest, val).Ok? <==> At(doc, ptr).Ok? && Add(At(doc, ptr).value, rest, val).Ok?
    ensures Add(doc, ptr + rest, val).Ok? ==>
      Add(doc, ptr + rest, val).value == Put(doc, ptr, Add(At(doc, ptr).value, rest, val).value)
  {
    hide Add, AddChild, At, Put;
    var whole, front := ptr + rest, rest[..|rest| - 1];
    assert whole[..|whole| - 1] == ptr + front && whole[|whole| - 1] == rest[|rest| - 1];
    AtConcat(doc, ptr, front);
    AddIs(doc, whole, val);
    if At(doc, ptr).Ok? {
      var below := At(doc, ptr).value;
      AddIs(below, rest, val);
      if At(below, front).Ok? && AddChild(At(below, front).value, rest[|rest| - 1], val).Ok? {
        PutConcat(doc, ptr, front, AddChild(At(below, front).value, rest[|rest| - 1], val).value);
      }
    }
  }

  /** What stands at an array element's place once the element is removed; below an object there is nothing. */
  function Successor(parent: JSON, token: string): Option<JSON> {
    if parent.Arr? && ArrayIndex(token).Ok? && ArrayIndex(token).value + 1 < |parent.elems|
    then Some(parent.elems[ArrayIndex(token).value + 1]) else None
  }

  lemma ChildRemoved(parent: JSON, token: string)
    requires Child(parent, token).Ok?
    ensures RemoveChild(parent, token).Ok?
    ensures match Successor(parent, token)
            case Some(next) => Child(RemoveChild(parent, token).value, token) == Ok(next)
            case None => Child(RemoveChild(parent, token).value, token).Throw?
  {}

  /** After a remove, its location holds the next array element, or nothing. */
  lemma RemovedLocation(doc: JSON, from: seq<string>)
    requires from != [] && At(doc, from).Ok?
    ensures Remove(doc, from).Ok? && At(doc, from[..|from| - 1]).Ok?
    ensures match Successor(At(doc, from[..|from| - 1]).value, from[|from| - 1])
            case Some(next) => At(Remove(doc, from).value, from) == Ok(next)
            case None => At(Remove(doc, from).value, from).Throw?
  {
    hide Child, RemoveChild, Successor;
    var front, last := from[..|from| - 1], from[|from| - 1];
    assert front + [last] == from;
    AtSnoc(doc, front, last);
    var parent := At(doc, front).value;
    ChildRemoved(parent, last);
    var changed := RemoveChild(parent, last).value;
    PutLaws(doc, front, changed, changed);
    AtSnoc(Put(doc, front, changed), front, last);
  }

  /**
   * Section 4.4 forbids to move a value below itself. The code has no such check: the move succeeds exactly
   * when the value is an array element, another element follows it, and the value can be added to that
   * one, which has taken its place; and there it goes. Everywhere else the move fails.
   */
  lemma MoveBelowItself(doc: JSON, from: seq<string>, rest: seq<string>)
    requires from != [] && rest != [] && At(doc, from).Ok?
    ensures At(doc, from[..|from| - 1]).Ok? && Remove(doc, from).Ok?
    ensures var next := Successor(At(doc, from[..|from| - 1]).value, from[|from| - 1]);
      && (MoveTo(doc, from, from + rest).Done? <==>
            next.Some? && Add(next.value, rest, At(doc, from).value).Ok?)
      && (MoveTo(doc, from, from + rest).Done? ==>
            && At(Remove(doc, from).value, from) == Ok(next.value)
            && MoveTo(doc, from, from + rest).doc ==
               Put(Remove(doc, from).value, from, Add(next.value, rest, At(doc, from).value).value))
  {
    RemovedLocation(doc, from);
    AddBelow(Remove(doc, from).value, from, rest, At(doc, from).value);
    hide Remove, Add, Successor;
  }

  /** For example, of two neighbours the first goes to the front of the second. */
  lemma MoveIntoNeighbour(moved: JSON, next: seq<JSON>)
    ensures MoveTo(Arr([moved, Arr(next)]), ["0"], ["0", "0"]) == Done(Arr([Arr([moved] + next)]))
  {
    var doc, rest := Arr([moved, Arr(next)]), Arr([Arr(next)]);
    assert ArrayIndex("0") == Ok(0) by { assert AllDigits("0"); IndexRoundTrip(0); assert ToDecimal(0) == "0"; }
    assert ["0"][..0] == [] && ["0"][1..] == [] && ["0", "0"][..1] == ["0"];
    assert doc.elems[..0] + doc.elems[1..] == [Arr(next)];
    assert At(doc, ["0"]) == Ok(moved) && At(rest, ["0"]) == Ok(Arr(next));
    assert Remove(doc, ["0"]) == Ok(rest);
    assert next[..0] + [moved] + next[0..] == [moved] + next;
    assert rest.elems[0 := Arr([moved] + next)] == [Arr([moved] + next)];
  }

  // ----- the object

  class Document {
    var value: JSON

    constructor (value: JSON)
      ensures this.value == value
    {
      this.value := value;
    }

    /** patch_inplace: the loop over the operations; an exception ends it and leaves the document as it is then. */
    method Patch(patch: JSON) returns (thrown: bool, error: Error)
      modifies this
      ensures PatchInPlace(old(value), patch) == if thrown then Failed(value, error) else Done(value)
    {
      thrown, error := false, AssertionFailed;
      if !patch.Arr? {
        return true, ParseError(104);
      }
      var i := 0;
      while i < |patch.elems|
        invariant i <= |patch.elems|
        invariant ApplyAll(old(value), patch.elems) == ApplyAll(value, patch.elems[i..])
      {
        assert patch.elems[i..][1..] == patch.elems[i + 1..];
        match Apply(value, patch.elems[i])
        case Failed(d, e) =>
          value := d;
          return true, e;
        case Done(d) =>
          value := d;
        i := i + 1;
      }
    }
  }
}
