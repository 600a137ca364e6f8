/**
 The preference tree of the settings screen, by key, and the two group
 operations the settings fragment uses on it: removing a preference from a
 group and appending one to a group.
 */
module PreferenceOverlay {
  import opened Optional

  type Key = string

  /**
   The ordered children of every group (category or screen) and the group
   each attached preference belongs to.
   */
  datatype Hierarchy = Hierarchy(children: map<Key, seq<Key>>, parent: map<Key, Key>)

  ghost predicate Distinct(s: seq<Key>) {
    forall i, j :: 0 <= i < j < |s| ==> s[i] != s[j]
  }

  /** The position of the first occurrence of `x` in `s`. */
  function IndexOf(s: seq<Key>, x: Key): (i: nat)
    requires x in s
    ensures i < |s| && s[i] == x
    ensures forall j :: 0 <= j < i ==> s[j] != x
  {
    if s[0] == x then 0 else 1 + IndexOf(s[1..], x)
  }

  /** The list with the first occurrence of `x` taken out; the others keep their order. */
  function RemoveFirst(s: seq<Key>, x: Key): (r: seq<Key>)
    ensures x !in s ==> r == s
    ensures x in s ==> r == s[..IndexOf(s, x)] + s[IndexOf(s, x) + 1..]
  {
    if s == [] then []
    else
      assert s == [s[0]] + s[1..];
      if s[0] == x then s[1..] else [s[0]] + RemoveFirst(s[1..], x)
  }

  lemma RemoveFirstOfDistinct(s: seq<Key>, x: Key)
    requires Distinct(s)
    ensures x !in RemoveFirst(s, x)
  {
  }

  /** removePreference on `group`: the preference leaves its list and, if it was the group's, loses its parent. */
  function Removed(h: Hierarchy, group: Key, p: Key): (r: Hierarchy)
    ensures group in h.children ==> r.children == h.children[group := RemoveFirst(h.children[group], p)]
    ensures group !in h.children ==> r.children == h.children
    ensures p in h.parent && h.parent[p] == group ==> r.parent == h.parent - {p}
    ensures !(p in h.parent && h.parent[p] == group) ==> r.parent == h.parent
  {
    Hierarchy(
      if group in h.children then h.children[group := RemoveFirst(h.children[group], p)] else h.children,
      if p in h.parent && h.parent[p] == group then h.parent - {p} else h.parent)
  }

  /** addPreference on `group`: the preference goes to the end of the group's list and the group becomes its parent. */
  function Added(h: Hierarchy, group: Key, p: Key): (r: Hierarchy)
    requires group in h.children
    ensures r.children == h.children[group := h.children[group] + [p]]
    ensures r.parent == h.parent[p := group]
  {
    Hierarchy(h.children[group := h.children[group] + [p]], h.parent[p := group])
  }

  /** One iteration of the move loop: remove from the overlay, then add to the target. */
  function Moved(h: Hierarchy, overlay: Key, target: Key, p: Key): (r: Hierarchy)
    requires target in h.children
    ensures r.children.Keys == h.children.Keys
  {
    Added(Removed(h, overlay, p), target, p)
  }

  /** The move loop over `ps`, in order. */
  function MovedAll(h: Hierarchy, overlay: Key, target: Key, ps: seq<Key>): (r: Hierarchy)
    requires target in h.children
    ensures r.children.Keys == h.children.Keys
    decreases |ps|
  {
    if ps == [] then h
    else Moved(MovedAll(h, overlay, target, ps[..|ps| - 1]), overlay, target, ps[|ps| - 1])
  }

  /** The move loop after `j + 1` iterations is one more iteration after `j`. */
  lemma MovedAllStep(h: Hierarchy, overlay: Key, target: Key, ps: seq<Key>, j: nat)
    requires target in h.children && j < |ps|
    ensures MovedAll(h, overlay, target, ps[..j + 1]) == Moved(MovedAll(h, overlay, target, ps[..j]), overlay, target, ps[j])
  {
    assert ps[..j + 1][..j] == ps[..j];
  }

  /** `overlayCat.parent?.removePreference(overlayCat)` */
  function Detached(h: Hierarchy, overlay: Key): (r: Hierarchy)
    ensures overlay !in r.parent
    ensures overlay in h.parent && h.parent[overlay] in h.children ==>
              r.children == h.children[h.parent[overlay] := RemoveFirst(h.children[h.parent[overlay]], overlay)]
    ensures !(overlay in h.parent && h.parent[overlay] in h.children) ==> r.children == h.children
    ensures forall k :: k != overlay ==> (k in r.parent <==> k in h.parent)
    ensures forall k :: k != overlay && k in h.parent ==> r.parent[k] == h.parent[k]
  {
    if overlay in h.parent then Removed(h, h.parent[overlay], overlay) else h
  }

  /**
   mergePreferenceOverlay: None when either key names no group (the `!!`
   throws); otherwise every child of the overlay is moved to the target, in
   order, and the overlay is detached from its parent.
   */
  function Merged(h: Hierarchy, overlay: Key, target: Key): (r: Option<Hierarchy>)
    ensures r.Some? <==> overlay in h.children && target in h.children
  {
    if overlay in h.children && target in h.children then
      Some(Detached(MovedAll(h, overlay, target, h.children[overlay]), overlay))
    else None
  }

  /** The parent links after moving `moved` to `target`: theirs point to the target, all others are as in `before`. */
  ghost predicate ParentsMoved(before: map<Key, Key>, after: map<Key, Key>, moved: seq<Key>, target: Key) {
    && (forall k :: k in moved ==> k in after && after[k] == target)
    && (forall k :: k !in moved ==> (k in after <==> k in before))
    && (forall k :: k !in moved && k in before ==> after[k] == before[k])
  }

  /** One iteration, when the overlay's list starts with the preference being moved. */
  lemma MoveOne(h: Hierarchy, overlay: Key, target: Key, p: Key, rest: seq<Key>)
    requires overlay != target && overlay in h.children && target in h.children
    requires h.children[overlay] == [p] + rest
    ensures Moved(h, overlay, target, p).children == h.children[overlay := rest][target := h.children[target] + [p]]
  {
  }

  lemma UpdateTwice(m: map<Key, seq<Key>>, a: Key, b: Key, x: seq<Key>, y: seq<Key>, x': seq<Key>, y': seq<Key>)
    requires a != b
    ensures m[a := x][b := y][a := x'][b := y'] == m[a := x'][b := y']
  {
  }

  /**
   Moving `done`, the front of the overlay's list, leaves the overlay with
   the `rest` and gives the target its own children followed by `done`, in
   order.
   */
  lemma {:induction false} MovedAllChildren(h: Hierarchy, overlay: Key, target: Key, done: seq<Key>, rest: seq<Key>)
    requires overlay != target && overlay in h.children && target in h.children
    requires h.children[overlay] == done + rest
    ensures MovedAll(h, overlay, target, done).children
              == h.children[overlay := rest][target := h.children[target] + done]
    decreases |done|
  {
    var own := h.children[target];
    if done == [] {
      assert own + done == own;
      assert done + rest == rest;
      assert h.children[overlay := rest][target := own] == h.children;
    } else {
      var front, p := done[..|done| - 1], done[|done| - 1];
      assert done == front + [p];
      assert h.children[overlay] == front + ([p] + rest);
      MovedAllChildren(h, overlay, target, front, [p] + rest);
      var before := MovedAll(h, overlay, target, front);
      MoveOne(before, overlay, target, p, rest);
      UpdateTwice(h.children, overlay, target, [p] + rest, own + front, rest, (own + front) + [p]);
      assert (own + front) + [p] == own + done;
    }
  }

  /** Every moved preference has the target as parent; no other parent link changes. */
  lemma {:induction false} MovedAllParents(h: Hierarchy, overlay: Key, target: Key, ps: seq<Key>)
    requires target in h.children
    ensures ParentsMoved(h.parent, MovedAll(h, overlay, target, ps).parent, ps, target)
    decreases |ps|
  {
    if ps != [] {
      var init := ps[..|ps| - 1];
      MovedAllParents(h, overlay, target, init);
      assert ps == init + [ps[|ps| - 1]];
      forall k | k in ps ensures k == ps[|ps| - 1] || k in init {
      }
    }
  }

  /** What the merge leaves alone: the set of groups, every group it does not touch, and every parent link it does not move. */
  lemma MergeFrame(h: Hierarchy, overlay: Key, target: Key)
    requires overlay != target && overlay in h.children && target in h.children
    requires overlay !in h.children[overlay]
    ensures Merged(h, overlay, target).Some?
    ensures var r := Merged(h, overlay, target).value;
      && r.children.Keys == h.children.Keys
      && (forall g :: g in h.children && g != overlay && g != target && !(overlay in h.parent && h.parent[overlay] == g)
            ==> r.children[g] == h.children[g])
      && (forall k :: k != overlay && k !in h.children[overlay] ==> (k in r.parent <==> k in h.parent))
      && (forall k :: k != overlay && k !in h.children[overlay] && k in h.parent ==> r.parent[k] == h.parent[k])
  {
    var ps := h.children[overlay];
    assert ps == ps + [];
    MovedAllChildren(h, overlay, target, ps, []);
    MovedAllParents(h, overlay, target, ps);
  }

  /**
   The merge, for an overlay that is not its own child and a target distinct
   from it: the target's children are its old children followed by all of
   the overlay's, in order; the overlay is empty and has no parent; the moved
   preferences belong to the target; and the overlay's old parent (when it is
   neither the overlay nor the target) has lost the overlay from its list.
   */
  lemma MergeOverlay(h: Hierarchy, overlay: Key, target: Key)
    requires overlay != target && overlay in h.children && target in h.children
    requires overlay !in h.children[overlay]
    ensures Merged(h, overlay, target).Some?
    ensures var r := Merged(h, overlay, target).value;
      && r.children[overlay] == []
      && (overlay !in h.parent || h.parent[overlay] != target ==>
            r.children[target] == h.children[target] + h.children[overlay])
      && (forall p :: p in h.children[overlay] ==> p in r.parent && r.parent[p] == target)
      && overlay !in r.parent
    ensures overlay in h.parent && h.parent[overlay] in h.children && h.parent[overlay] != overlay
            && h.parent[overlay] != target ==>
              var old_ := h.children[h.parent[overlay]];
              && Merged(h, overlay, target).value.children[h.parent[overlay]] == RemoveFirst(old_, overlay)
              && (Distinct(old_) ==> overlay !in Merged(h, overlay, target).value.children[h.parent[overlay]])
    ensures overlay in h.parent && h.parent[overlay] == target ==>
              Merged(h, overlay, target).value.children[target]
                == RemoveFirst(h.children[target] + h.children[overlay], overlay)
    ensures var r := Merged(h, overlay, target).value;
      && r.children.Keys == h.children.Keys
      && (forall g :: g in h.children && g != overlay && g != target && !(overlay in h.parent && h.parent[overlay] == g)
            ==> r.children[g] == h.children[g])
      && (forall k :: k != overlay && k !in h.children[overlay] ==> (k in r.parent <==> k in h.parent))
      && (forall k :: k != overlay && k !in h.children[overlay] && k in h.parent ==> r.parent[k] == h.parent[k])
  {
    var ps := h.children[overlay];
    assert ps == ps + [];
    MovedAllChildren(h, overlay, target, ps, []);
    MovedAllParents(h, overlay, target, ps);
    MergeFrame(h, overlay, target);
    var moved := MovedAll(h, overlay, target, ps);
    assert overlay !in ps;
    if overlay in h.parent && h.parent[overlay] in h.children && h.parent[overlay] != overlay
       && h.parent[overlay] != target && Distinct(h.children[h.parent[overlay]]) {
      RemoveFirstOfDistinct(h.children[h.parent[overlay]], overlay);
    }
  }

  /** The preference screen object; its groups are changed in place. */
  class PreferenceScreen {
    var children: map<Key, seq<Key>>
    var parent: map<Key, Key>

    constructor (h: Hierarchy)
      ensures Value() == h
    {
      children, parent := h.children, h.parent;
    }

    function Value(): Hierarchy
      reads this
    {
      Hierarchy(children, parent)
    }

    method RemovePreference(group: Key, p: Key)
      modifies this
      ensures Value() == Removed(old(Value()), group, p)
    {
      if group in children {
        children := children[group := RemoveFirst(children[group], p)];
      }
      if p in parent && parent[p] == group {
        parent := parent - {p};
      }
    }

    method AddPreference(group: Key, p: Key)
      requires group in children
      modifies this
      ensures Value() == Added(old(Value()), group, p)
    {
      children := children[group := children[group] + [p]];
      parent := parent[p := group];
    }
  }
}
