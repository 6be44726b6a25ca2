/** JSON Merge Patch, RFC 7396. */
module JsonMergePatch {
  import opened Common
  import opened Json

  /** What the document's members are to a merge: a document that is no object has none. */
  function Members(target: JSON): map<string, JSON> {
    match target
    case Obj(members) => members
    case _ => map[]
  }

  /**
   * Section 2 of RFC 7396: a patch that is no object replaces the target; otherwise its null members are
   * removed, its other members are merged, and the members it does not name stay.
   */
  ghost function Merged(target: JSON, patch: JSON): JSON
    decreases patch
  {
    match patch
    case Obj(changes) =>
      var members := Members(target);
      Obj(map k: string | k in members.Keys + changes.Keys && !(k in changes && changes[k].Null?) ::
            if k in changes then Merged(if k in members then members[k] else Null, changes[k]) else members[k])
    case _ => patch
  }

  // ----- the loop of merge_patch

  /** What the loop has made of the members after the patch members in keys. */
  ghost function AfterMerging(members: map<string, JSON>, changes: map<string, JSON>, done: set<string>): map<string, JSON>
    requires done <= changes.Keys
  {
    map k: string | k in members.Keys + done && !(k in done && changes[k].Null?) ::
      if k in done then Merged(if k in members then members[k] else Null, changes[k]) else members[k]
  }

  lemma NoneMerged(members: map<string, JSON>, changes: map<string, JSON>)
    ensures AfterMerging(members, changes, {}) == members
  {}

  lemma AllMerged(target: JSON, patch: JSON)
    requires patch.Obj?
    ensures Obj(AfterMerging(Members(target), patch.members, patch.members.Keys)) == Merged(target, patch)
  {
    assert AfterMerging(Members(target), patch.members, patch.members.Keys) == Merged(target, patch).members;
  }

  lemma NextMerged(members: map<string, JSON>, changes: map<string, JSON>, done: set<string>, k: string)
    requires done <= changes.Keys && k in changes && k !in done
    ensures var cur := AfterMerging(members, changes, done); var next := AfterMerging(members, changes, done + {k});
      && (k in cur <==> k in members) && (k in members ==> cur[k] == members[k])
      && next == if changes[k].Null? then cur - {k} else cur[k := Merged(if k in members then members[k] else Null, changes[k])]
  {
    hide Merged;
    var cur := AfterMerging(members, changes, done);
    var next := AfterMerging(members, changes, done + {k});
    var expected := if changes[k].Null? then cur - {k} else cur[k := Merged(if k in members then members[k] else Null, changes[k])];
    forall k' | k' in next
      ensures k' in expected && expected[k'] == next[k']
    {}
    forall k' | k' in expected
      ensures k' in next
    {}
    assert next.Keys == expected.Keys;
  }

  /**
   * merge_patch: erases a member for a null, and merges into the member, created as null when it is missing,
   * for anything else. The order in which the patch is traversed does not matter.
   */
  method MergePatch(target: JSON, patch: JSON) returns (r: JSON)
    ensures r == Merged(target, patch)
    decreases patch
  {
    hide Merged, AfterMerging, Members;
    match patch
    case Obj(changes) =>
      var members := Members(target);
      var cur := members;
      var left := changes.Keys;
      NoneMerged(members, changes);
      assert changes.Keys - left == {};
      while left != {}
        invariant left <= changes.Keys
        invariant cur == AfterMerging(members, changes, changes.Keys - left)
        decreases |left|
      {
        var k :| k in left;
        NextMerged(members, changes, changes.Keys - left, k);
        assert changes.Keys - (left - {k}) == (changes.Keys - left) + {k};
        if changes[k].Null? {
          cur := cur - {k};
        } else {
          var v := MergePatch(if k in cur then cur[k] else Null, changes[k]);
          cur := cur[k := v];
        }
        left := left - {k};
      }
      assert changes.Keys - left == changes.Keys;
      AllMerged(target, patch);
      r := Obj(cur);
    case _ =>
      NotAnObject(target, patch);
      r := patch;
  }

  lemma NotAnObject(target: JSON, patch: JSON)
    requires !patch.Obj?
    ensures Merged(target, patch) == patch
  {}

  // ----- what merging promises

  lemma {:induction false} MergeIsIdempotent(target: JSON, patch: JSON)
    ensures Merged(Merged(target, patch), patch) == Merged(target, patch)
    decreases patch
  {
    if patch.Obj? {
      var once := Merged(target, patch);
      var twice := Merged(once, patch);
      assert once.Obj? && twice.Obj?;
      forall k
        ensures k in twice.members <==> k in once.members
        ensures k in twice.members ==> twice.members[k] == once.members[k]
      {
        if k in patch.members && !patch.members[k].Null? {
          var before := Members(target);
          MergeIsIdempotent(if k in before then before[k] else Null, patch.members[k]);
        }
      }
      assert twice.members == once.members;
    }
  }

  /** The value under a chain of object keys, when there is one. */
  function Get(j: JSON, keys: seq<string>): Option<JSON>
    decreases |keys|
  {
    if keys == [] then Some(j)
    else if j.Obj? && keys[0] in j.members then Get(j.members[keys[0]], keys[1..])
    else None
  }

  /** The patch names neither this member nor an object around it for replacement or removal. */
  predicate Unnamed(patch: JSON, keys: seq<string>)
    decreases |keys|
  {
    keys != [] && patch.Obj? && (keys[0] in patch.members ==> Unnamed(patch.members[keys[0]], keys[1..]))
  }

  /** Members the patch does not name are untouched, at every depth: none changes, none goes, none appears. */
  lemma {:induction false} UnnamedStays(target: JSON, patch: JSON, keys: seq<string>)
    requires Unnamed(patch, keys)
    ensures Get(Merged(target, patch), keys) == Get(target, keys)
    decreases |keys|
  {
    var members := Members(target);
    var k := keys[0];
    if k in patch.members {
      UnnamedStays(if k in members then members[k] else Null, patch.members[k], keys[1..]);
    }
  }

  /**
   * What the patch names takes effect, at every depth: a null removes the member, and anything else that is
   * no object is there afterwards; an object is merged into what was there, or into nothing.
   */
  lemma {:induction false} NamedTakesEffect(target: JSON, patch: JSON, keys: seq<string>)
    requires Get(patch, keys).Some?
    ensures var v := Get(patch, keys).value; var before := Get(target, keys);
      Get(Merged(target, patch), keys) ==
      if v.Null? && keys != [] then None
      else if !v.Obj? then Some(v)
      else Some(Merged(if before.Some? then before.value else Null, v))
    decreases |keys|
  {
    if keys != [] {
      var members := Members(target);
      var k := keys[0];
      NamedTakesEffect(if k in members then members[k] else Null, patch.members[k], keys[1..]);
    }
  }

  /** Merging an empty object makes an object of the target, and of an object nothing else. */
  lemma EmptyPatch(target: JSON)
    ensures Merged(target, Obj(map[])) == if target.Obj? then target else Obj(map[])
  {
    if target.Obj? {
      assert Merged(target, Obj(map[])).members == target.members;
    } else {
      assert Merged(target, Obj(map[])).members == map[];
    }
  }
}
