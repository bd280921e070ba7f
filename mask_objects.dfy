/**
 * The list of renderers excluded from the vignette by the mask, shared by both
 * backends. Adding appends the renderer and then, when asked, every renderer
 * `GetComponentsInChildren` returns for it, which includes the renderer itself, so it is
 * listed twice; removing takes away the first occurrence of each in the same order.
 */
module MaskObjects {
  import opened UnityMath

  /** Index of the first occurrence of `x` (`List.IndexOf`). */
  function FirstIndex(s: seq<ObjectId>, x: ObjectId): (i: nat)
    requires x in s
    ensures i < |s| && s[i] == x && x !in s[..i]
  {
    if s[0] == x then 0 else 1 + FirstIndex(s[1..], x)
  }

  /** `List.Remove`: the first occurrence of `x` is taken out; a list without `x` is unchanged. */
  function RemoveFirst(s: seq<ObjectId>, x: ObjectId): (r: seq<ObjectId>)
    ensures x !in s ==> r == s
    ensures x in s ==> r == s[..FirstIndex(s, x)] + s[FirstIndex(s, x) + 1..]
  {
    if x in s then s[..FirstIndex(s, x)] + s[FirstIndex(s, x) + 1..] else s
  }

  /** Taking out the first occurrence of a member removes exactly one copy of it. */
  lemma RemoveFirstMultiset(s: seq<ObjectId>, x: ObjectId)
    ensures x in s ==> multiset(RemoveFirst(s, x)) == multiset(s) - multiset{x}
    ensures x in s ==> |RemoveFirst(s, x)| == |s| - 1
  {
    if x in s {
      var i := FirstIndex(s, x);
      assert s == s[..i] + [x] + s[i + 1..];
      calc {
        multiset(s);
        multiset(s[..i] + [x] + s[i + 1..]);
        multiset(s[..i]) + multiset{x} + multiset(s[i + 1..]);
      }
    }
  }

  /** `s` after removing the first occurrence of each element of `xs`, in order. */
  function RemoveEach(s: seq<ObjectId>, xs: seq<ObjectId>): seq<ObjectId>
    decreases |xs|
  {
    if xs == [] then s else RemoveEach(RemoveFirst(s, xs[0]), xs[1..])
  }

  /** When every element of `xs` is available, `RemoveEach` takes away exactly `xs`. */
  lemma {:induction false} RemoveEachMultiset(s: seq<ObjectId>, xs: seq<ObjectId>)
    requires multiset(xs) <= multiset(s)
    ensures multiset(RemoveEach(s, xs)) == multiset(s) - multiset(xs)
    decreases |xs|
  {
    if xs != [] {
      var x, rest := xs[0], xs[1..];
      assert xs == [x] + rest;
      assert x in multiset(s);
      RemoveFirstMultiset(s, x);
      var t := RemoveFirst(s, x);
      assert multiset(rest) <= multiset(t);
      RemoveEachMultiset(t, rest);
    }
  }

  /**
   * The renderers one call adds or removes: `r`, then, when requested, `inChildren`, the
   * result of `GetComponentsInChildren` on `r`. The engine's list starts with `r` itself,
   * so with children `r` is listed twice.
   */
  function Listed(r: ObjectId, inChildren: seq<ObjectId>, includeChildren: bool): (l: seq<ObjectId>)
    ensures |l| > 0 && l[0] == r
    ensures includeChildren ==> l[1..] == inChildren
    ensures !includeChildren ==> l == [r]
  {
    [r] + (if includeChildren then inChildren else [])
  }

  /** Adding and then removing the same renderers restores the list's contents, though not always its order. */
  lemma AddThenRemoveRestores(s: seq<ObjectId>, r: ObjectId, inChildren: seq<ObjectId>, includeChildren: bool)
    ensures multiset(RemoveEach(s + Listed(r, inChildren, includeChildren), Listed(r, inChildren, includeChildren)))
            == multiset(s)
  {
    var l := Listed(r, inChildren, includeChildren);
    assert multiset(s + l) == multiset(s) + multiset(l);
    RemoveEachMultiset(s + l, l);
  }

  /** Removing a renderer that is not listed changes nothing. */
  lemma RemovingAbsentRendererIsNoOp(s: seq<ObjectId>, xs: seq<ObjectId>)
    requires forall i :: 0 <= i < |xs| ==> xs[i] !in s
    ensures RemoveEach(s, xs) == s
    decreases |xs|
  {
    if xs != [] {
      RemovingAbsentRendererIsNoOp(s, xs[1..]);
    }
  }

  /** The mask-object list of one effect. */
  class MaskList {
    var items: seq<ObjectId>

    constructor ()
      ensures items == []
    {
      items := [];
    }

    /** `AddObjectToMask`'s list part: `r` is appended, then, when asked, each renderer of `inChildren` in order. */
    method Add(r: ObjectId, inChildren: seq<ObjectId>, includeChildren: bool)
      modifies this
      ensures items == old(items) + Listed(r, inChildren, includeChildren)
    {
      items := items + [r];
      if includeChildren {
        var i := 0;
        while i < |inChildren|
          invariant 0 <= i <= |inChildren|
          invariant items == old(items) + [r] + inChildren[..i]
        {
          items := items + [inChildren[i]];
          i := i + 1;
        }
        assert inChildren[..i] == inChildren;
      }
    }

    /** `RemoveObjectFromMask`'s list part: the first occurrence of `r`, then, when asked, of each renderer of `inChildren`, is removed. */
    method Remove(r: ObjectId, inChildren: seq<ObjectId>, includeChildren: bool)
      modifies this
      ensures items == RemoveEach(old(items), Listed(r, inChildren, includeChildren))
    {
      items := RemoveFirst(items, r);
      if includeChildren {
        var i := 0;
        while i < |inChildren|
          invariant 0 <= i <= |inChildren|
          invariant RemoveEach(old(items), [r] + inChildren) == RemoveEach(items, inChildren[i..])
        {
          assert inChildren[i..] == [inChildren[i]] + inChildren[i + 1..];
          items := RemoveFirst(items, inChildren[i]);
          i := i + 1;
        }
        assert inChildren[i..] == [];
      } else {
        assert RemoveEach(old(items), [r]) == RemoveEach(items, []);
      }
    }
  }
}
