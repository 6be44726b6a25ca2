/** diff: the patch that turns one document into another, and why applying it does. */
module JsonDiff {
  import opened Common
  import opened Json
  import opened JsonEscape
  import opened JsonPointer
  import opened JsonPatch

  // ----- the patch

  function IndexPath(path: string, i: nat): string {
    path + "/" + ToDecimal(i)
  }

  function KeyPath(path: string, key: string): string {
    path + "/" + Escape(key)
  }

  ghost function Diff(a: JSON, b: JSON, path: string): seq<JSON>
    decreases a, 2, 0
  {
    if a == b then []
    else if !SameType(a, b) then [ReplaceOp(path, b)]
    else
      match a
      case Arr(elems) =>
        DiffCommon(a, b, path, 0) + Removals(path, |b.elems|, |elems|) + Appends(path, b.elems, |elems|)
      case Obj(members) =>
        KeyOrderVisitsAll(members.Keys);
        KeyOrderVisitsAll(b.members.Keys);
        DiffKeys(a, b, path, KeyOrder(members.Keys)) + NewKeys(members, b.members, path, KeyOrder(b.members.Keys))
      case _ => [ReplaceOp(path, b)]
  }

  /** First pass over arrays: the common elements from i on. */
  ghost function DiffCommon(a: JSON, b: JSON, path: string, i: nat): seq<JSON>
    requires a.Arr? && b.Arr?
    decreases a, 1, |a.elems| - i
  {
    if i < |a.elems| && i < |b.elems|
    then Diff(a.elems[i], b.elems[i], IndexPath(path, i)) + DiffCommon(a, b, path, i + 1)
    else []
  }

  /** The elements from lo to hi are removed from the back. */
  function Removals(path: string, lo: nat, hi: nat): seq<JSON>
    decreases hi
  {
    if hi <= lo then [] else [RemoveOp(IndexPath(path, hi - 1))] + Removals(path, lo, hi - 1)
  }

  function Appends(path: string, elems: seq<JSON>, from: nat): seq<JSON>
    decreases |elems| - from
  {
    if from >= |elems| then [] else [AddOp(path + "/-", elems[from])] + Appends(path, elems, from + 1)
  }

  /** First pass over objects: every key of the source is compared or removed. */
  ghost function DiffKeys(a: JSON, b: JSON, path: string, keys: seq<string>): seq<JSON>
    requires a.Obj? && b.Obj? && forall k :: k in keys ==> k in a.members
    decreases a, 1, |keys|
  {
    if keys == [] then []
    else
      assert keys[0] in a.members;
      (if keys[0] in b.members
       then Diff(a.members[keys[0]], b.members[keys[0]], KeyPath(path, keys[0]))
       else [RemoveOp(KeyPath(path, keys[0]))])
      + DiffKeys(a, b, path, keys[1..])
  }

  /** Second pass: the keys that only the target has. */
  function NewKeys(a: map<string, JSON>, b: map<string, JSON>, path: string, keys: seq<string>): seq<JSON>
    requires forall k :: k in keys ==> k in b
  {
    if keys == [] then []
    else
      assert keys[0] in b;
      (if keys[0] in a then [] else [AddOp(KeyPath(path, keys[0]), b[keys[0]])]) + NewKeys(a, b, path, keys[1..])
  }

  // ----- single operations

  lemma PlainToken(t: string)
    requires forall i :: 0 <= i < |t| ==> t[i] != '/' && t[i] != '~'
    ensures Escape(t) == t
  {
    if t != "" {
      EscapeHead(t[0], t[1..]);
      assert [t[0]] + t[1..] == t;
      PlainToken(t[1..]);
    } else {
      EmptyReplaced("~", "~0");
    }
  }

  /** The path of an array element is that of its index, as a token. */
  lemma IndexPathIsKeyPath(path: string, i: nat)
    ensures IndexPath(path, i) == KeyPath(path, ToDecimal(i))
    ensures path + "/-" == KeyPath(path, "-")
  {
    hide ToDecimal;
    var t := ToDecimal(i);
    forall k | 0 <= k < |t|
      ensures t[k] != '/' && t[k] != '~'
    {
      assert IsDigit(t[k]);
    }
    PlainToken(t);
    PlainToken("-");
    assert path + "/-" == path + "/" + "-";
  }

  lemma ReplaceApplies(doc: JSON, path: string, ptr: seq<string>, v: JSON)
    requires Split(path) == Ok(ptr) && At(doc, ptr).Ok?
    ensures Apply(doc, ReplaceOp(path, v)) == Done(Put(doc, ptr, v))
  {
    hide Split, At, Put;
  }

  lemma AddAt(doc: JSON, ptr: seq<string>, token: string, v: JSON)
    requires At(doc, ptr).Ok? && AddChild(At(doc, ptr).value, token, v).Ok?
    ensures Add(doc, ptr + [token], v) == Ok(Put(doc, ptr, AddChild(At(doc, ptr).value, token, v).value))
  {
    hide At, Put, AddChild;
    var full := ptr + [token];
    assert full[..|full| - 1] == ptr && full[|full| - 1] == token;
    if |full| > 1 {
      assert full[..1] == [ptr[0]];
      TopExists(doc, ptr);
    }
  }

  lemma AddApplies(doc: JSON, path: string, ptr: seq<string>, token: string, v: JSON)
    requires Split(path) == Ok(ptr) && At(doc, ptr).Ok? && AddChild(At(doc, ptr).value, token, v).Ok?
    ensures Apply(doc, AddOp(KeyPath(path, token), v)) == Done(Put(doc, ptr, AddChild(At(doc, ptr).value, token, v).value))
  {
    hide Split, At, Put, Escape, AddChild, Add;
    SplitExtends(path, ptr, token);
    AddAt(doc, ptr, token, v);
  }

  lemma RemoveApplies(doc: JSON, path: string, ptr: seq<string>, token: string)
    requires Split(path) == Ok(ptr) && At(doc, ptr).Ok? && RemoveChild(At(doc, ptr).value, token).Ok?
    ensures Apply(doc, RemoveOp(KeyPath(path, token))) == Done(Put(doc, ptr, RemoveChild(At(doc, ptr).value, token).value))
  {
    hide Split, At, Put, Escape, RemoveChild;
    SplitExtends(path, ptr, token);
    var full := ptr + [token];
    assert full[..|full| - 1] == ptr && full[|full| - 1] == token;
  }

  // ----- arrays

  lemma {:induction false} RemovalsApply(doc: JSON, path: string, ptr: seq<string>, xs: seq<JSON>, lo: nat)
    requires Split(path) == Ok(ptr) && At(doc, ptr) == Ok(Arr(xs)) && lo <= |xs| < SIZE_MAX
    ensures ApplyAll(doc, Removals(path, lo, |xs|)) == Done(Put(doc, ptr, Arr(xs[..lo])))
    decreases |xs|
  {
    hide Split, At, Put, Apply, RemoveOp, IndexPath, ArrayIndex;
    if |xs| == lo {
      assert xs[..lo] == xs;
      PutLaws(doc, ptr, Null, Null);
    } else {
      var i := |xs| - 1;
      IndexPathIsKeyPath(path, i);
      IndexRoundTrip(i);
      assert xs[..i] + xs[i + 1..] == xs[..i];
      RemoveApplies(doc, path, ptr, ToDecimal(i));
      var next := Put(doc, ptr, Arr(xs[..i]));
      PutLaws(doc, ptr, Arr(xs[..i]), Arr(xs[..lo]));
      RemovalsApply(next, path, ptr, xs[..i], lo);
      assert xs[..i][..lo] == xs[..lo];
      FirstApplies(doc, RemoveOp(IndexPath(path, i)), Removals(path, lo, i), next);
    }
  }

  lemma FirstApplies(doc: JSON, op: JSON, rest: seq<JSON>, next: JSON)
    requires Apply(doc, op) == Done(next)
    ensures ApplyAll(doc, [op] + rest) == ApplyAll(next, rest)
  {
    hide Apply;
    assert ([op] + rest)[1..] == rest;
  }

  lemma {:induction false} AppendsApply(doc: JSON, path: string, ptr: seq<string>, xs: seq<JSON>, elems: seq<JSON>, from: nat)
    requires Split(path) == Ok(ptr) && At(doc, ptr) == Ok(Arr(xs)) && from <= |elems|
    ensures ApplyAll(doc, Appends(path, elems, from)) == Done(Put(doc, ptr, Arr(xs + elems[from..])))
    decreases |elems| - from
  {
    hide Split, At, Put, Apply, AddOp, ArrayIndex;
    if from == |elems| {
      assert xs + elems[from..] == xs;
      PutLaws(doc, ptr, Null, Null);
    } else {
      var v := elems[from];
      IndexPathIsKeyPath(path, 0);
      AddApplies(doc, path, ptr, "-", v);
      var next := Put(doc, ptr, Arr(xs + [v]));
      PutLaws(doc, ptr, Arr(xs + [v]), Arr(xs + elems[from..]));
      AppendsApply(next, path, ptr, xs + [v], elems, from + 1);
      assert (xs + [v]) + elems[from + 1..] == xs + elems[from..];
      FirstApplies(doc, AddOp(path + "/-", v), Appends(path, elems, from + 1), next);
    }
  }

  // ----- the theorem

  /**
   * The operations of diff(a, b), computed for the path of any location that holds a, turn the document
   * into the same document with b at that location, and change nothing else.
   */
  lemma {:induction false} DiffApplies(doc: JSON, a: JSON, b: JSON, path: string, ptr: seq<string>)
    requires Split(path) == Ok(ptr) && At(doc, ptr) == Ok(a) && Fits(a) && Fits(b)
    ensures ApplyAll(doc, Diff(a, b, path)) == Done(Put(doc, ptr, b))
    decreases a, 2, 0
  {
    hide Split, At, Put, Apply, ReplaceOp, DiffCommon, DiffKeys;
    PutLaws(doc, ptr, b, b);
    if a == b {
    } else if !SameType(a, b) || (!a.Arr? && !a.Obj?) {
      ReplaceApplies(doc, path, ptr, b);
      FirstApplies(doc, ReplaceOp(path, b), [], Put(doc, ptr, b));
      assert [ReplaceOp(path, b)] + [] == [ReplaceOp(path, b)];
    } else if a.Arr? {
      ArraysApply(doc, a, b, path, ptr);
    } else {
      ObjectsApply(doc, a, b, path, ptr);
    }
  }

  /** Where a child lies: its path parses to its pointer, and putting it is putting a changed parent. */
  lemma ChildPath(doc: JSON, path: string, ptr: seq<string>, token: string)
    requires Split(path) == Ok(ptr) && At(doc, ptr).Ok? && Child(At(doc, ptr).value, token).Ok?
    ensures Split(KeyPath(path, token)) == Ok(ptr + [token])
    ensures At(doc, ptr + [token]) == Child(At(doc, ptr).value, token)
    ensures forall v :: Put(doc, ptr + [token], v) == Put(doc, ptr, PutChild(At(doc, ptr).value, token, v))
  {
    hide Split, At, Put, Child, PutChild, Escape;
    SplitExtends(path, ptr, token);
    AtSnoc(doc, ptr, token);
    forall v
      ensures Put(doc, ptr + [token], v) == Put(doc, ptr, PutChild(At(doc, ptr).value, token, v))
    {
      PutSnoc(doc, ptr, token, v);
    }
  }

  lemma ElementChild(xs: seq<JSON>, i: nat, v: JSON)
    requires i < |xs| < SIZE_MAX
    ensures Child(Arr(xs), ToDecimal(i)) == Ok(xs[i]) && PutChild(Arr(xs), ToDecimal(i), v) == Arr(xs[i := v])
  {
    hide ArrayIndex, ToDecimal;
    IndexRoundTrip(i);
  }

  lemma FitsElement(a: JSON, i: nat)
    requires Fits(a) && a.Arr? && i < |a.elems|
    ensures Fits(a.elems[i])
  {}

  /** The state of an array whose first i elements have been compared. */
  function Mixed(a: JSON, b: JSON, i: nat): seq<JSON>
    requires a.Arr? && b.Arr? && i <= |a.elems| && i <= |b.elems|
  {
    b.elems[..i] + a.elems[i..]
  }

  lemma {:induction false} CommonApplies(doc: JSON, a: JSON, b: JSON, path: string, ptr: seq<string>, i: nat)
    requires a.Arr? && b.Arr? && Fits(a) && Fits(b) && i <= |a.elems| && i <= |b.elems|
    requires Split(path) == Ok(ptr) && At(doc, ptr) == Ok(Arr(Mixed(a, b, i)))
    ensures var m := if |a.elems| < |b.elems| then |a.elems| else |b.elems|;
      ApplyAll(doc, DiffCommon(a, b, path, i)) == Done(Put(doc, ptr, Arr(Mixed(a, b, m))))
    decreases a, 1, |a.elems| - i
  {
    hide Split, At, Put, Apply, Diff, Child, PutChild, IndexPath, Fits;
    var m := if |a.elems| < |b.elems| then |a.elems| else |b.elems|;
    if i == m {
      PutLaws(doc, ptr, Null, Null);
    } else {
      var xs := Mixed(a, b, i);
      var v := b.elems[i];
      FitsSize(a);
      ElementChild(xs, i, v);
      IndexPathIsKeyPath(path, i);
      ChildPath(doc, path, ptr, ToDecimal(i));
      FitsElement(a, i);
      FitsElement(b, i);
      DiffApplies(doc, a.elems[i], v, IndexPath(path, i), ptr + [ToDecimal(i)]);
      assert xs[i := v] == Mixed(a, b, i + 1);
      var next := Put(doc, ptr, Arr(Mixed(a, b, i + 1)));
      PutLaws(doc, ptr, Arr(Mixed(a, b, i + 1)), Arr(Mixed(a, b, m)));
      CommonApplies(next, a, b, path, ptr, i + 1);
      ApplyConcat(doc, Diff(a.elems[i], v, IndexPath(path, i)), DiffCommon(a, b, path, i + 1));
    }
  }

  lemma FitsSize(a: JSON)
    requires Fits(a) && a.Arr?
    ensures |a.elems| < SIZE_MAX
  {}

  lemma {:induction false} ArraysApply(doc: JSON, a: JSON, b: JSON, path: string, ptr: seq<string>)
    requires Split(path) == Ok(ptr) && At(doc, ptr) == Ok(a) && Fits(a) && Fits(b) && a.Arr? && b.Arr?
    ensures ApplyAll(doc, DiffCommon(a, b, path, 0) + Removals(path, |b.elems|, |a.elems|) + Appends(path, b.elems, |a.elems|)) == Done(Put(doc, ptr, b))
    decreases a, 1, |a.elems| + 1
  {
    hide Split, At, Put, Apply, DiffCommon, Fits;
    FitsSize(a);
    assert Mixed(a, b, 0) == a.elems;
    CommonApplies(doc, a, b, path, ptr, 0);
    var m := if |a.elems| < |b.elems| then |a.elems| else |b.elems|;
    var xs := Mixed(a, b, m);
    var d1 := Put(doc, ptr, Arr(xs));
    PutLaws(doc, ptr, Arr(xs), b);
    var common, removals, appends := DiffCommon(a, b, path, 0), Removals(path, |b.elems|, |a.elems|), Appends(path, b.elems, |a.elems|);
    ApplyConcat(doc, common, removals);
    ApplyConcat(doc, common + removals, appends);
    if |a.elems| > |b.elems| {
      RemovalsApply(d1, path, ptr, xs, |b.elems|);
      assert xs[..|b.elems|] == b.elems;
    } else {
      AppendsApply(d1, path, ptr, xs, b.elems, |a.elems|);
      assert xs + b.elems[|a.elems|..] == b.elems;
    }
  }

  // ----- objects

  /** An object after its keys in a list were compared with the target's, or removed. */
  function AfterKeys(cur: map<string, JSON>, b: map<string, JSON>, keys: seq<string>): map<string, JSON>
    decreases |keys|
  {
    if keys == [] then cur
    else AfterKeys(if keys[0] in b then cur[keys[0] := b[keys[0]]] else cur - {keys[0]}, b, keys[1..])
  }

  function AfterNew(cur: map<string, JSON>, a: map<string, JSON>, b: map<string, JSON>, keys: seq<string>): map<string, JSON>
    requires forall k :: k in keys ==> k in b
    decreases |keys|
  {
    if keys == [] then cur
    else
      assert keys[0] in b;
      AfterNew(if keys[0] in a then cur else cur[keys[0] := b[keys[0]]], a, b, keys[1..])
  }

  predicate Distinct(keys: seq<string>) {
    forall i, j :: 0 <= i < j < |keys| ==> keys[i] != keys[j]
  }

  lemma {:induction false} AfterKeysMembers(cur: map<string, JSON>, b: map<string, JSON>, keys: seq<string>, k: string)
    ensures k in keys ==> (k in AfterKeys(cur, b, keys) <==> k in b)
    ensures k in keys && k in b ==> AfterKeys(cur, b, keys)[k] == b[k]
    ensures k !in keys ==> (k in AfterKeys(cur, b, keys) <==> k in cur)
    ensures k !in keys && k in cur ==> AfterKeys(cur, b, keys)[k] == cur[k]
    decreases |keys|
  {
    if keys != [] {
      AfterKeysMembers(if keys[0] in b then cur[keys[0] := b[keys[0]]] else cur - {keys[0]}, b, keys[1..], k);
    }
  }

  lemma {:induction false} AfterNewMembers(cur: map<string, JSON>, a: map<string, JSON>, b: map<string, JSON>, keys: seq<string>, k: string)
    requires forall k :: k in keys ==> k in b
    ensures k in keys && k !in a ==> k in AfterNew(cur, a, b, keys) && AfterNew(cur, a, b, keys)[k] == b[k]
    ensures k !in keys || k in a ==> (k in AfterNew(cur, a, b, keys) <==> k in cur)
    ensures (k !in keys || k in a) && k in cur ==> AfterNew(cur, a, b, keys)[k] == cur[k]
    decreases |keys|
  {
    if keys != [] {
      AfterNewMembers(if keys[0] in a then cur else cur[keys[0] := b[keys[0]]], a, b, keys[1..], k);
    }
  }

  /** Both passes together make the source's members the target's. */
  lemma PassesGiveTarget(a: map<string, JSON>, b: map<string, JSON>, ka: seq<string>, kb: seq<string>)
    requires forall k :: k in ka <==> k in a
    requires forall k :: k in kb <==> k in b
    ensures AfterNew(AfterKeys(a, b, ka), a, b, kb) == b
  {
    hide AfterKeys, AfterNew;
    var mid := AfterKeys(a, b, ka);
    var r := AfterNew(mid, a, b, kb);
    forall k
      ensures AgreeAt(r, b, k)
    {
      AfterKeysMembers(a, b, ka, k);
      AfterNewMembers(mid, a, b, kb, k);
    }
    AgreeEverywhere(r, b);
  }

  lemma FitsMember(a: JSON, k: string)
    requires Fits(a) && a.Obj? && k in a.members
    ensures Fits(a.members[k])
  {}

  lemma {:induction false} KeysApply(doc: JSON, a: JSON, b: JSON, path: string, ptr: seq<string>, keys: seq<string>, cur: map<string, JSON>)
    requires a.Obj? && b.Obj? && Fits(a) && Fits(b) && Distinct(keys)
    requires forall k :: k in keys ==> k in a.members && k in cur && cur[k] == a.members[k]
    requires Split(path) == Ok(ptr) && At(doc, ptr) == Ok(Obj(cur))
    ensures ApplyAll(doc, DiffKeys(a, b, path, keys)) == Done(Put(doc, ptr, Obj(AfterKeys(cur, b.members, keys))))
    decreases a, 1, |keys|
  {
    hide Split, At, Put, Apply, Diff, Child, PutChild, KeyPath, Fits, RemoveOp;
    if keys == [] {
      PutLaws(doc, ptr, Null, Null);
    } else {
      var k, rest := keys[0], keys[1..];
      assert k in keys;
      var next := if k in b.members then cur[k := b.members[k]] else cur - {k};
      var op := if k in b.members then Diff(a.members[k], b.members[k], KeyPath(path, k)) else [RemoveOp(KeyPath(path, k))];
      if k in b.members {
        MemberChild(cur, k, b.members[k]);
        ChildPath(doc, path, ptr, k);
        FitsMember(a, k);
        FitsMember(b, k);
        DiffApplies(doc, a.members[k], b.members[k], KeyPath(path, k), ptr + [k]);
      } else {
        RemoveApplies(doc, path, ptr, k);
        OneApplies(doc, RemoveOp(KeyPath(path, k)), Put(doc, ptr, Obj(next)));
      }
      assert ApplyAll(doc, op) == Done(Put(doc, ptr, Obj(next)));
      PutLaws(doc, ptr, Obj(next), Obj(AfterKeys(cur, b.members, keys)));
      KeysApply(Put(doc, ptr, Obj(next)), a, b, path, ptr, rest, next);
      ApplyConcat(doc, op, DiffKeys(a, b, path, rest));
    }
  }

  lemma OneApplies(doc: JSON, op: JSON, next: JSON)
    requires Apply(doc, op) == Done(next)
    ensures ApplyAll(doc, [op]) == Done(next)
  {
    hide Apply;
    FirstApplies(doc, op, [], next);
    assert [op] + [] == [op];
  }

  lemma MemberChild(members: map<string, JSON>, k: string, v: JSON)
    requires k in members
    ensures Child(Obj(members), k) == Ok(members[k]) && PutChild(Obj(members), k, v) == Obj(members[k := v])
  {}

  lemma {:induction false} NewKeysApply(doc: JSON, a: map<string, JSON>, b: map<string, JSON>, path: string, ptr: seq<string>, keys: seq<string>, cur: map<string, JSON>)
    requires forall k :: k in keys ==> k in b
    requires Split(path) == Ok(ptr) && At(doc, ptr) == Ok(Obj(cur))
    ensures ApplyAll(doc, NewKeys(a, b, path, keys)) == Done(Put(doc, ptr, Obj(AfterNew(cur, a, b, keys))))
    decreases |keys|
  {
    hide Split, At, Put, Apply, KeyPath, AddOp;
    if keys == [] {
      PutLaws(doc, ptr, Null, Null);
    } else {
      var k, rest := keys[0], keys[1..];
      assert k in keys;
      if k in a {
        NewKeysApply(doc, a, b, path, ptr, rest, cur);
        assert [] + NewKeys(a, b, path, rest) == NewKeys(a, b, path, rest);
      } else {
        var next := cur[k := b[k]];
        AddApplies(doc, path, ptr, k, b[k]);
        PutLaws(doc, ptr, Obj(next), Obj(AfterNew(cur, a, b, keys)));
        NewKeysApply(Put(doc, ptr, Obj(next)), a, b, path, ptr, rest, next);
        FirstApplies(doc, AddOp(KeyPath(path, k), b[k]), NewKeys(a, b, path, rest), Put(doc, ptr, Obj(next)));
      }
    }
  }

  lemma {:induction false} ObjectsApply(doc: JSON, a: JSON, b: JSON, path: string, ptr: seq<string>)
    requires Split(path) == Ok(ptr) && At(doc, ptr) == Ok(a) && Fits(a) && Fits(b) && a.Obj? && b.Obj? && a != b
    ensures ApplyAll(doc, Diff(a, b, path)) == Done(Put(doc, ptr, b))
    decreases a, 1, |KeyOrder(a.members.Keys)| + 1
  {
    KeyOrderVisitsAll(a.members.Keys);
    KeyOrderVisitsAll(b.members.Keys);
    SortedIsDistinct(KeyOrder(a.members.Keys));
    var ka, kb := KeyOrder(a.members.Keys), KeyOrder(b.members.Keys);
    PassesGiveTarget(a.members, b.members, ka, kb);
    assert Diff(a, b, path) == DiffKeys(a, b, path, ka) + NewKeys(a.members, b.members, path, kb);
    hide Split, At, Put, Apply, DiffKeys, NewKeys, Fits, AfterKeys, AfterNew, KeyOrder, Diff;
    KeysApply(doc, a, b, path, ptr, ka, a.members);
    var mid := AfterKeys(a.members, b.members, ka);
    PutLaws(doc, ptr, Obj(mid), b);
    NewKeysApply(Put(doc, ptr, Obj(mid)), a.members, b.members, path, ptr, kb, mid);
    ApplyConcat(doc, DiffKeys(a, b, path, ka), NewKeys(a.members, b.members, path, kb));
  }

  lemma SortedIsDistinct(keys: seq<string>)
    requires forall i, j :: 0 <= i < j < |keys| ==> KeyLess(keys[i], keys[j])
    ensures Distinct(keys)
  {
    forall i, j | 0 <= i < j < |keys|
      ensures keys[i] != keys[j]
    {
      KeysAreOrdered(keys[i], keys[j]);
    }
  }

  /** Nothing outside the location changes. */
  lemma DiffLeavesRest(doc: JSON, a: JSON, b: JSON, path: string, ptr: seq<string>, other: seq<string>)
    requires Split(path) == Ok(ptr) && At(doc, ptr) == Ok(a) && Fits(a) && Fits(b) && Diverge(ptr, other)
    ensures ApplyAll(doc, Diff(a, b, path)).Done? && At(ApplyAll(doc, Diff(a, b, path)).doc, other) == At(doc, other)
  {
    hide Split, At, Put, Fits, Diff, ApplyAll, Diverge;
    DiffApplies(doc, a, b, path, ptr);
    PutLeavesRest(doc, ptr, other, b);
  }

  /** Applying diff(s, t) to s succeeds and gives t. */
  lemma PatchOfDiff(s: JSON, t: JSON)
    requires Fits(s) && Fits(t)
    ensures Patch(s, Arr(Diff(s, t, ""))) == Ok(t)
  {
    hide Diff, Fits, ApplyAll;
    assert At(s, []) == Ok(s) && Put(s, [], t) == t;
    DiffApplies(s, s, t, "", []);
  }

  // ----- diff as its loops compute it

  /** A map's iterator: the keys from the least to the greatest. */
  method IterateKeys(members: map<string, JSON>) returns (keys: seq<string>)
    ensures keys == KeyOrder(members.Keys)
  {
    keys := [];
    var left := members.Keys;
    while left != {}
      invariant keys + KeyOrder(left) == KeyOrder(members.Keys)
      decreases |left|
    {
      var k := LeastKey(left);
      assert keys + ([k] + KeyOrder(left - {k})) == (keys + [k]) + KeyOrder(left - {k});
      keys := keys + [k];
      left := left - {k};
    }
    assert keys + KeyOrder({}) == keys;
  }

  method LeastKey(left: set<string>) returns (k: string)
    requires left != {}
    ensures k == Least(left)
  {
    hide KeyLess;
    var unseen := left;
    k :| k in left;
    unseen := unseen - {k};
    while unseen != {}
      invariant unseen <= left && k in left && k !in unseen
      invariant IsLeast(left - unseen, k)
      decreases |unseen|
    {
      var other :| other in unseen;
      KeysAreOrdered(other, k);
      if KeyLess(other, k) {
        SmallerIsLeast(left - unseen, k, other);
        k := other;
      }
      unseen := unseen - {other};
      assert left - unseen == (left - (unseen + {other})) + {other};
    }
    assert left - unseen == left;
    KeysAreOrdered(k, Least(left));
  }

  lemma SmallerIsLeast(keys: set<string>, k: string, other: string)
    requires IsLeast(keys, k) && KeyLess(other, k)
    ensures IsLeast(keys + {other}, other)
  {
    hide KeyLess;
    forall k' | k' in keys
      ensures KeyLess(other, k')
    {
      if k' != k {
        KeyLessTransitive(other, k, k');
      }
    }
  }

  lemma Regroup(x: seq<JSON>, y: seq<JSON>, z: seq<JSON>)
    ensures x + (y + z) == (x + y) + z
  {}

  /** diff: compares, and recurs into arrays and objects; every operation is pushed where the source pushes it. */
  method DiffDocuments(a: JSON, b: JSON, path: string) returns (result: seq<JSON>)
    ensures result == Diff(a, b, path)
    decreases a, 1
  {
    if a == b {
      return [];
    }
    if !SameType(a, b) {
      return [ReplaceOp(path, b)];
    }
    match a
    case Arr(_) => result := DiffArrays(a, b, path);
    case Obj(_) => result := DiffObjects(a, b, path);
    case _ => result := [ReplaceOp(path, b)];
  }

  method DiffArrays(a: JSON, b: JSON, path: string) returns (result: seq<JSON>)
    requires a.Arr? && b.Arr?
    ensures result == DiffCommon(a, b, path, 0) + Removals(path, |b.elems|, |a.elems|) + Appends(path, b.elems, |a.elems|)
    decreases a, 0
  {
    hide Diff, RemoveOp, AddOp, IndexPath;
    result := [];
    var i := 0;
    while i < |a.elems| && i < |b.elems|
      invariant i <= |a.elems| && i <= |b.elems|
      invariant result + DiffCommon(a, b, path, i) == DiffCommon(a, b, path, 0)
      decreases |a.elems| - i
    {
      var difference := DiffDocuments(a.elems[i], b.elems[i], IndexPath(path, i));
      Regroup(result, difference, DiffCommon(a, b, path, i + 1));
      result := result + difference;
      i := i + 1;
    }
    ghost var common := DiffCommon(a, b, path, 0);
    assert result == common;
    var endIndex := |result|;
    ghost var common' := i;
    while i < |a.elems|
      invariant common' <= i && (i <= |a.elems| || i == common') && |b.elems| >= common'
      invariant i > common' ==> common' == |b.elems|
      invariant result == common + Removals(path, |b.elems|, i)
      decreases |a.elems| - i
    {
      result := result[..endIndex] + [RemoveOp(IndexPath(path, i))] + result[endIndex..];
      i := i + 1;
    }
    while i < |b.elems|
      invariant |a.elems| <= i
      invariant result + Appends(path, b.elems, i) == common + Removals(path, |b.elems|, |a.elems|) + Appends(path, b.elems, |a.elems|)
      decreases |b.elems| - i
    {
      Regroup(result, [AddOp(path + "/-", b.elems[i])], Appends(path, b.elems, i + 1));
      result := result + [AddOp(path + "/-", b.elems[i])];
      i := i + 1;
    }
  }

  method DiffObjects(a: JSON, b: JSON, path: string) returns (result: seq<JSON>)
    requires a.Obj? && b.Obj? && a != b
    ensures result == Diff(a, b, path)
    decreases a, 0, 2
  {
    KeyOrderVisitsAll(a.members.Keys);
    KeyOrderVisitsAll(b.members.Keys);
    hide KeyOrder, DiffKeys, NewKeys;
    var keys := IterateKeys(a.members);
    result := CompareKeys(a, b, path, keys);
    keys := IterateKeys(b.members);
    var more := AddNewKeys(a.members, b.members, path, keys);
    result := result + more;
  }

  /** The first loop over objects. */
  method CompareKeys(a: JSON, b: JSON, path: string, keys: seq<string>) returns (result: seq<JSON>)
    requires a.Obj? && b.Obj? && forall k :: k in keys ==> k in a.members
    ensures result == DiffKeys(a, b, path, keys)
    decreases a, 0, 1
  {
    DiffKeysEnds(a, b, path, keys);
    hide Diff, DiffKeys, RemoveOp, KeyPath;
    result := [];
    var i := 0;
    while i < |keys|
      invariant i <= |keys|
      invariant result + DiffKeys(a, b, path, keys[i..]) == DiffKeys(a, b, path, keys)
    {
      DiffKeysStep(a, b, path, keys, i);
      var difference := CompareKey(a, b, path, keys[i]);
      Regroup(result, difference, DiffKeys(a, b, path, keys[i + 1..]));
      result := result + difference;
      i := i + 1;
    }
  }

  /** What the first loop does for one key. */
  method CompareKey(a: JSON, b: JSON, path: string, k: string) returns (difference: seq<JSON>)
    requires a.Obj? && b.Obj? && k in a.members
    ensures difference == if k in b.members then Diff(a.members[k], b.members[k], KeyPath(path, k)) else [RemoveOp(KeyPath(path, k))]
    decreases a, 0, 0
  {
    hide Diff, RemoveOp, KeyPath;
    if k in b.members {
      difference := DiffDocuments(a.members[k], b.members[k], KeyPath(path, k));
    } else {
      difference := [RemoveOp(KeyPath(path, k))];
    }
  }

  lemma DiffKeysEnds(a: JSON, b: JSON, path: string, keys: seq<string>)
    requires a.Obj? && b.Obj? && forall k :: k in keys ==> k in a.members
    ensures [] + DiffKeys(a, b, path, keys[0..]) == DiffKeys(a, b, path, keys)
    ensures DiffKeys(a, b, path, keys[|keys|..]) == []
  {
    assert keys[0..] == keys && keys[|keys|..] == [];
    hide Diff;
  }

  lemma DiffKeysStep(a: JSON, b: JSON, path: string, keys: seq<string>, i: nat)
    requires a.Obj? && b.Obj? && i < |keys| && forall k :: k in keys ==> k in a.members
    ensures keys[i] in a.members
    ensures DiffKeys(a, b, path, keys[i..]) ==
      (if keys[i] in b.members then Diff(a.members[keys[i]], b.members[keys[i]], KeyPath(path, keys[i])) else [RemoveOp(KeyPath(path, keys[i]))])
      + DiffKeys(a, b, path, keys[i + 1..])
  {
    hide Diff, RemoveOp, KeyPath;
    assert keys[i] in keys && keys[i..][1..] == keys[i + 1..] && keys[i..][0] == keys[i];
  }

  /** The second loop over objects. */
  method AddNewKeys(a: map<string, JSON>, b: map<string, JSON>, path: string, keys: seq<string>) returns (result: seq<JSON>)
    requires forall k :: k in keys ==> k in b
    ensures result == NewKeys(a, b, path, keys)
  {
    hide AddOp, KeyPath;
    result := [];
    var i := 0;
    while i < |keys|
      invariant i <= |keys|
      invariant result + NewKeys(a, b, path, keys[i..]) == NewKeys(a, b, path, keys)
    {
      var k := keys[i];
      assert k in keys;
      assert keys[i..][1..] == keys[i + 1..];
      ghost var rest := NewKeys(a, b, path, keys[i + 1..]);
      var more := if k in a then [] else [AddOp(KeyPath(path, k), b[k])];
      assert result + (more + rest) == (result + more) + rest;
      result := result + more;
      i := i + 1;
    }
  }
}
