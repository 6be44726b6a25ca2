/** What each operation of a JSON Patch does to a document, from its text to the document it leaves. */
module JsonOperations {
  import opened Common
  import opened Json
  import opened JsonEscape
  import opened JsonPointer
  import opened JsonPatch

  // ----- add, remove and replace

  /** The operations of these three kinds do what Add, Remove and Replace say, and a failing one changes nothing. */
  lemma BasicOperations(doc: JSON, path: string, ptr: seq<string>, v: JSON)
    requires Split(path) == Ok(ptr)
    ensures var r := Add(doc, ptr, v); Apply(doc, AddOp(path, v)) == if r.Ok? then Done(r.value) else Failed(doc, r.error)
    ensures var r := Remove(doc, ptr); Apply(doc, RemoveOp(path)) == if r.Ok? then Done(r.value) else Failed(doc, r.error)
    ensures var r := Replace(doc, ptr, v); Apply(doc, ReplaceOp(path, v)) == if r.Ok? then Done(r.value) else Failed(doc, r.error)
  {
    hide Split, Add, Remove, Replace;
  }

  /** What stands in an array, or an object, once a value was added to it under a token. */
  ghost predicate Inserted(parent: JSON, token: string, v: JSON, after: JSON) {
    match parent
    case Null => after == Obj(map[token := v])
    case Obj(members) =>
      && after.Obj? && after.members.Keys == members.Keys + {token} && after.members[token] == v
      && forall k :: k in members && k != token ==> after.members[k] == members[k]
    case Arr(elems) =>
      && (token == "-" || (ArrayIndex(token).Ok? && ArrayIndex(token).value <= |elems|))
      && after.Arr? && |after.elems| == |elems| + 1
      && var i := if token == "-" then |elems| else ArrayIndex(token).value;
      && after.elems[i] == v
      && (forall j :: 0 <= j < i ==> after.elems[j] == elems[j])
      && (forall j :: i <= j < |elems| ==> after.elems[j + 1] == elems[j])
    case _ => false
  }

  /** The key of an object is gone, or the element of an array, and those behind it have moved up. */
  ghost predicate TakenOut(parent: JSON, token: string, after: JSON) {
    match parent
    case Obj(members) =>
      && token in members && after.Obj? && after.members.Keys == members.Keys - {token}
      && forall k :: k in members && k != token ==> after.members[k] == members[k]
    case Arr(elems) =>
      && ArrayIndex(token).Ok? && ArrayIndex(token).value < |elems|
      && after.Arr? && |after.elems| == |elems| - 1
      && (forall j :: 0 <= j < ArrayIndex(token).value ==> after.elems[j] == elems[j])
      && (forall j :: ArrayIndex(token).value < j < |elems| ==> after.elems[j - 1] == elems[j])
    case _ => after == parent
  }

  lemma AddChildMeans(parent: JSON, token: string, v: JSON, after: JSON)
    ensures AddChild(parent, token, v) == Ok(after) <==> Inserted(parent, token, v, after)
  {
    hide ArrayIndex;
    if Inserted(parent, token, v, after) && parent.Obj? {
      assert after.members == parent.members[token := v];
    } else if Inserted(parent, token, v, after) && parent.Arr? {
      var i := if token == "-" then |parent.elems| else ArrayIndex(token).value;
      forall j | i < j < |after.elems|
        ensures after.elems[j] == parent.elems[j - 1]
      {
        var k := j - 1;
        assert after.elems[k + 1] == parent.elems[k];
      }
      assert after.elems == parent.elems[..i] + [v] + parent.elems[i..];
      if token == "-" {
        assert after.elems == parent.elems + [v];
      }
    }
  }

  lemma RemoveChildMeans(parent: JSON, token: string, after: JSON)
    ensures RemoveChild(parent, token) == Ok(after) <==> TakenOut(parent, token, after)
  {
    hide ArrayIndex;
    if TakenOut(parent, token, after) && parent.Obj? {
      assert after.members == parent.members - {token};
    } else if TakenOut(parent, token, after) && parent.Arr? {
      var i := ArrayIndex(token).value;
      forall j | i <= j < |after.elems|
        ensures after.elems[j] == parent.elems[j + 1]
      {
        var k := j + 1;
        assert after.elems[k - 1] == parent.elems[k];
      }
      assert after.elems == parent.elems[..i] + parent.elems[i + 1..];
    }
  }

  /** The exceptions of operation_add and operation_remove themselves. */
  lemma ParentErrors(parent: JSON, token: string, v: JSON)
    ensures AddChild(parent, token, v).Throw? ==>
      AddChild(parent, token, v).error ==
      if !parent.Arr? then AssertionFailed else if ArrayIndex(token).Throw? then ArrayIndex(token).error else OutOfRange(401)
    ensures RemoveChild(parent, token).Throw? ==>
      RemoveChild(parent, token).error ==
      if parent.Obj? then OutOfRange(403) else if ArrayIndex(token).Throw? then ArrayIndex(token).error else OutOfRange(401)
  {
    hide ArrayIndex;
  }

  /**
   * add, for any document and pointer: it puts the value for the whole document, or into the parent of the
   * location, which must be there; it changes nothing at a pointer that parts from the parent's.
   */
  lemma AddMeans(doc: JSON, ptr: seq<string>, v: JSON, after: JSON, other: seq<string>)
    ensures ptr == [] ==> Add(doc, ptr, v) == Ok(v)
    ensures ptr != [] ==>
      var front, last := ptr[..|ptr| - 1], ptr[|ptr| - 1];
      && (Add(doc, ptr, v).Ok? <==> At(doc, front).Ok? && AddChild(At(doc, front).value, last, v).Ok?)
      && (Add(doc, ptr, v) == Ok(after) ==>
            && At(after, front).Ok? && Inserted(At(doc, front).value, last, v, At(after, front).value)
            && (Diverge(front, other) ==> At(after, other) == At(doc, other)))
  {
    hide Add, At, Put, AddChild, Inserted;
    if ptr == [] {
      AddWhole(doc, v);
    } else {
      var front, last := ptr[..|ptr| - 1], ptr[|ptr| - 1];
      AddIs(doc, ptr, v);
      if Add(doc, ptr, v) == Ok(after) {
        var changed := AddChild(At(doc, front).value, last, v).value;
        AddChildMeans(At(doc, front).value, last, v, changed);
        PutLaws(doc, front, changed, changed);
        if Diverge(front, other) {
          PutLeavesRest(doc, front, other, changed);
        }
      }
    }
  }

  lemma AddWhole(doc: JSON, v: JSON)
    ensures Add(doc, [], v) == Ok(v)
  {}

  /** remove, likewise; the whole document cannot be removed. */
  lemma RemoveMeans(doc: JSON, ptr: seq<string>, after: JSON, other: seq<string>)
    ensures ptr == [] ==> Remove(doc, ptr) == Throw(OutOfRange(405))
    ensures ptr != [] ==>
      var front, last := ptr[..|ptr| - 1], ptr[|ptr| - 1];
      && (Remove(doc, ptr).Ok? <==> At(doc, front).Ok? && RemoveChild(At(doc, front).value, last).Ok?)
      && (Remove(doc, ptr) == Ok(after) ==>
            && At(after, front).Ok? && TakenOut(At(doc, front).value, last, At(after, front).value)
            && (Diverge(front, other) ==> At(after, other) == At(doc, other)))
  {
    hide At, Put, RemoveChild, TakenOut;
    if ptr != [] {
      var front, last := ptr[..|ptr| - 1], ptr[|ptr| - 1];
      if Remove(doc, ptr) == Ok(after) {
        var changed := RemoveChild(At(doc, front).value, last).value;
        RemoveChildMeans(At(doc, front).value, last, changed);
        PutLaws(doc, front, changed, changed);
        if Diverge(front, other) {
          PutLeavesRest(doc, front, other, changed);
        }
      }
    }
  }

  /** replace: the location must be there; the value is there afterwards, and nothing else has changed. */
  lemma ReplaceMeans(doc: JSON, ptr: seq<string>, v: JSON, after: JSON, other: seq<string>)
    ensures Replace(doc, ptr, v).Ok? <==> At(doc, ptr).Ok?
    ensures Replace(doc, ptr, v).Throw? ==> Throw(Replace(doc, ptr, v).error) == At(doc, ptr)
    ensures Replace(doc, ptr, v) == Ok(after) ==> At(after, ptr) == Ok(v) && (Diverge(ptr, other) ==> At(after, other) == At(doc, other))
  {
    hide At, Put;
    if At(doc, ptr).Ok? {
      PutLaws(doc, ptr, v, v);
      if Diverge(ptr, other) {
        PutLeavesRest(doc, ptr, other, v);
      }
    }
  }

  // ----- copy, move and test

  /**
   * copy: it succeeds exactly when from holds a value and adding that value at path does, and leaves what
   * that leaves. In a fresh place the value is then there as well, and removing it restores the document.
   */
  lemma CopyOperation(doc: JSON, from: string, src: seq<string>, path: string, ptr: seq<string>, other: seq<string>)
    requires Split(from) == Ok(src) && Split(path) == Ok(ptr)
    ensures var r := Apply(doc, CopyOp(from, path));
      && (r.Done? <==> At(doc, src).Ok? && Add(doc, ptr, At(doc, src).value).Ok?)
      && (r.Failed? ==> r.doc == doc)
      && (r.Done? ==>
            && Add(doc, ptr, At(doc, src).value) == Ok(r.doc)
            && (IsFresh(doc, ptr) ==> At(r.doc, ptr) == At(doc, src) && Apply(r.doc, RemoveOp(path)) == Done(doc))
            && (ptr != [] && Diverge(ptr[..|ptr| - 1], other) ==> At(r.doc, other) == At(doc, other)))
  {
    CopyApplies(doc, from, src, path, ptr);
    hide Split, At, Add, IsFresh, Apply, CopyTo, Diverge;
    if At(doc, src).Ok? && Add(doc, ptr, At(doc, src).value).Ok? {
      var v := At(doc, src).value;
      if IsFresh(doc, ptr) {
        FreshAdded(doc, path, ptr, v);
      }
      if ptr != [] && Diverge(ptr[..|ptr| - 1], other) {
        AddLeavesRest(doc, ptr, v, other);
      }
    }
  }

  lemma FreshAdded(doc: JSON, path: string, ptr: seq<string>, v: JSON)
    requires Split(path) == Ok(ptr) && IsFresh(doc, ptr) && Add(doc, ptr, v).Ok?
    ensures var after := Add(doc, ptr, v).value; At(after, ptr) == Ok(v) && Apply(after, RemoveOp(path)) == Done(doc)
  {
    hide Split, At, Add, Remove, IsFresh, Apply;
    BasicOperations(Add(doc, ptr, v).value, path, ptr, v);
    RemoveUndoesAdd(doc, ptr, v);
  }

  lemma AddLeavesRest(doc: JSON, ptr: seq<string>, v: JSON, other: seq<string>)
    requires ptr != [] && Add(doc, ptr, v).Ok? && Diverge(ptr[..|ptr| - 1], other)
    ensures At(Add(doc, ptr, v).value, other) == At(doc, other)
  {
    hide At, Add, Diverge, Inserted, AddChild;
    AddMeans(doc, ptr, v, Add(doc, ptr, v).value, other);
  }

  lemma CopyApplies(doc: JSON, from: string, src: seq<string>, path: string, ptr: seq<string>)
    requires Split(from) == Ok(src) && Split(path) == Ok(ptr)
    ensures Apply(doc, CopyOp(from, path)) == CopyTo(doc, src, ptr)
    ensures At(doc, src).Throw? ==> CopyTo(doc, src, ptr) == Failed(doc, At(doc, src).error)
    ensures At(doc, src).Ok? ==>
      var r := Add(doc, ptr, At(doc, src).value); CopyTo(doc, src, ptr) == if r.Ok? then Done(r.value) else Failed(doc, r.error)
  {
    hide Split, At, Add;
  }

  /**
   * move: it succeeds exactly when from holds a value, that value can be removed, and adding it at path to
   * what is left does; a failure of the last step leaves the value removed. From a fresh place the operation
   * in the other direction restores the document.
   */
  lemma MoveOperation(doc: JSON, from: string, src: seq<string>, path: string, ptr: seq<string>)
    requires Split(from) == Ok(src) && Split(path) == Ok(ptr)
    ensures var r := Apply(doc, MoveOp(from, path));
      && (r.Done? <==> At(doc, src).Ok? && src != [] && Remove(doc, src).Ok? && Add(Remove(doc, src).value, ptr, At(doc, src).value).Ok?)
      && (r.Done? ==> Add(Remove(doc, src).value, ptr, At(doc, src).value) == Ok(r.doc))
      && (r.Failed? ==> r.doc == if At(doc, src).Ok? && Remove(doc, src).Ok? then Remove(doc, src).value else doc)
      && (r.Done? && IsFresh(Remove(doc, src).value, ptr) ==>
            At(r.doc, ptr) == At(doc, src) && Apply(r.doc, MoveOp(path, from)) == Done(doc))
  {
    MoveApplies(doc, from, src, path, ptr);
    var r := MoveTo(doc, src, ptr);
    MoveApplies(r.doc, path, ptr, from, src);
    RemoveMeans(doc, src, doc, []);
    hide Split, At, Add, Remove, IsFresh, Apply;
    if r.Done? && IsFresh(Remove(doc, src).value, ptr) {
      MoveBack(doc, src, ptr);
    }
  }

  lemma MoveApplies(doc: JSON, from: string, src: seq<string>, path: string, ptr: seq<string>)
    requires Split(from) == Ok(src) && Split(path) == Ok(ptr)
    ensures Apply(doc, MoveOp(from, path)) == MoveTo(doc, src, ptr)
  {
    hide Split, MoveTo;
  }

  /**
   * test: it succeeds exactly when the value at path is the one given, and never changes the document. A
   * location that cannot be reached counts as a failed test, unless a token on the way to it is no index.
   */
  lemma TestOperation(doc: JSON, path: string, ptr: seq<string>, v: JSON)
    requires Split(path) == Ok(ptr)
    ensures var r := Apply(doc, TestOp(path, v));
      && r.doc == doc && (r.Done? <==> At(doc, ptr) == Ok(v))
      && (r.Failed? ==> r.error == if At(doc, ptr).Throw? && !At(doc, ptr).error.OutOfRange? then At(doc, ptr).error else OtherError(501))
  {
    hide Split, At;
  }

  // ----- the operation as a document

  predicate HasString(members: map<string, JSON>, name: string) {
    name in members && members[name].Str?
  }

  /** An operation that is not well formed fails before it changes anything, with the exception for what is wrong first. */
  lemma MalformedOperation(doc: JSON, val: JSON)
    ensures !val.Obj? ==> Apply(doc, val) == Failed(doc, ParseError(104))
    ensures val.Obj? && !(HasString(val.members, "op") && HasString(val.members, "path")) ==> Apply(doc, val) == Failed(doc, ParseError(105))
    ensures val.Obj? && HasString(val.members, "op") && HasString(val.members, "path") ==>
      var op, path := val.members["op"].s, Split(val.members["path"].s);
      && (path.Throw? ==> Apply(doc, val) == Failed(doc, path.error))
      && (path.Ok? && op !in {"add", "remove", "replace", "move", "copy", "test"} ==> Apply(doc, val) == Failed(doc, ParseError(105)))
      && (path.Ok? && op in {"add", "replace"} && "value" !in val.members ==> Apply(doc, val) == Failed(doc, ParseError(105)))
      && (path.Ok? && op in {"move", "copy"} && !HasString(val.members, "from") ==> Apply(doc, val) == Failed(doc, ParseError(105)))
      && (path.Ok? && op in {"move", "copy"} && HasString(val.members, "from") && Split(val.members["from"].s).Throw? ==>
            Apply(doc, val) == Failed(doc, Split(val.members["from"].s).error))
  {
    hide Split, At, Add, Remove, Replace, MoveTo, CopyTo;
  }

  /** An operation is what its op, path, from and value say; other members are ignored. */
  lemma OtherMembersIgnored(doc: JSON, val: map<string, JSON>, val': map<string, JSON>)
    requires AgreeAt(val, val', "op") && AgreeAt(val, val', "path") && AgreeAt(val, val', "from") && AgreeAt(val, val', "value")
    ensures Apply(doc, Obj(val)) == Apply(doc, Obj(val'))
  {
    SameParts(val, val');
    hide Header, FromPointer, GetValue, Add, Remove, Replace, MoveTo, CopyTo, At;
  }

  lemma SameParts(val: map<string, JSON>, val': map<string, JSON>)
    requires AgreeAt(val, val', "op") && AgreeAt(val, val', "path") && AgreeAt(val, val', "from") && AgreeAt(val, val', "value")
    ensures Header(Obj(val)) == Header(Obj(val'))
    ensures FromPointer(val) == FromPointer(val')
    ensures GetValue(val, "value") == GetValue(val', "value")
  {
    hide Split;
  }
}
