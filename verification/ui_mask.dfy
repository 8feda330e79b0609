/**
 * A UI mask (core/ui/ui_mask.cpp): an element drawn between an opening
 * and a closing stencil, whose children are kept so that a child added
 * later never ends up after the last one. Elements are identified by
 * number; sizes are integer pairs here, floats in the engine.
 */
module UIMasks {
  datatype Vector2 = Vector2(x: int, y: int)

  /** A mask stencil: whether it opens or closes the mask, where it sits and how large it is. */
  datatype Stencil = Stencil(isOpen: bool, position: Vector2, size: Vector2)

  /** The children after AddChild (lines 26-32). */
  function AddChildTo(children: seq<nat>, child: nat): (r: seq<nat>)
    ensures |r| == |children| + 1
    ensures multiset(r) == multiset(children) + multiset{child}
    ensures |children| < 2 ==> r == children + [child]
    ensures |children| >= 2 ==>
      r[..|children| - 1] == children[..|children| - 1]
      && r[|r| - 2] == child && r[|r| - 1] == children[|children| - 1]
  {
    if |children| >= 2 then
      var n := |children|;
      assert children == children[..n - 1] + [children[n - 1]];
      children[..n - 1] + [child] + [children[n - 1]]
    else children + [child]
  }

  /** Once there are two children, adding more keeps the first one first and the last one last. */
  lemma {:induction false} AddChildrenKeepEnds(children: seq<nat>, added: seq<nat>)
    requires |children| >= 2
    ensures var r := AddAll(children, added);
      |r| == |children| + |added| && r[0] == children[0] && r[|r| - 1] == children[|children| - 1]
  {
    if |added| > 0 {
      AddChildrenKeepEnds(children, added[..|added| - 1]);
    }
  }

  /** The children after adding each of `added` in turn. */
  function AddAll(children: seq<nat>, added: seq<nat>): seq<nat>
  {
    if |added| == 0 then children else AddChildTo(AddAll(children, added[..|added| - 1]), added[|added| - 1])
  }

  /** With the closing element last, a new child goes just before it. */
  lemma InsertBeforeLast(front: seq<nat>, child: nat, last: nat)
    requires |front| >= 1
    ensures AddChildTo(front + [last], child) == front + [child] + [last]
  {
    var c := front + [last];
    assert c[..|c| - 1] == front;
  }

  /**
   * Children added to a mask that holds its two stencils land in the order
   * they are added, between the opening and the closing stencil.
   */
  lemma {:induction false} AddedBetweenStencils(openStencil: nat, closeStencil: nat, added: seq<nat>)
    ensures AddAll([openStencil, closeStencil], added) == [openStencil] + added + [closeStencil]
  {
    if |added| > 0 {
      var n := |added|;
      var front := [openStencil] + added[..n - 1];
      assert front + [added[n - 1]] == [openStencil] + added by {
        assert added[..n - 1] + [added[n - 1]] == added;
      }
      AddedBetweenStencils(openStencil, closeStencil, added[..n - 1]);
      InsertBeforeLast(front, added[n - 1], closeStencil);
    }
  }

  class UIMask {
    var position: Vector2
    var size: Vector2
    var parent: nat
    var children: seq<nat>
    /** m_MaskStencils: the opening stencil at 0, the closing one at 1. */
    var stencils: seq<Stencil>

    ghost predicate Valid()
      reads this
    {
      |stencils| == 2 && stencils[0].isOpen && !stencils[1].isOpen
    }

    /**
     * Create (lines 4-16): the mask under `parent`, with an opening and a
     * closing stencil at (0, 0) of the mask's size. The stencils are created
     * with the mask as their parent (lines 9-10), which adds them to its
     * children in turn: `openStencil` and `closeStencil` are their ids.
     */
    constructor Create(parent: nat, position: Vector2, size: Vector2, openStencil: nat, closeStencil: nat)
      ensures Valid()
      ensures this.parent == parent && this.position == position && this.size == size
      ensures stencils == [Stencil(true, Vector2(0, 0), size), Stencil(false, Vector2(0, 0), size)]
      ensures children == [openStencil, closeStencil]
    {
      this.parent := parent;
      this.position := position;
      this.size := size;
      children := AddChildTo(AddChildTo([], openStencil), closeStencil);
      stencils := [Stencil(true, Vector2(0, 0), size), Stencil(false, Vector2(0, 0), size)];
    }

    /** Update (lines 18-24): both stencils take the mask's current size. */
    method Update()
      requires Valid()
      modifies this
      ensures Valid()
      ensures |stencils| == 2 && forall i :: 0 <= i < 2 ==> stencils[i] == old(stencils[i]).(size := size)
      ensures size == old(size) && position == old(position) && children == old(children) && parent == old(parent)
    {
      var i := 0;
      while i < |stencils|
        invariant 0 <= i <= |stencils| == 2
        invariant forall k :: 0 <= k < 2 ==> stencils[k] == if k < i then old(stencils[k]).(size := size) else old(stencils[k])
        invariant size == old(size) && position == old(position) && children == old(children) && parent == old(parent)
      {
        stencils := stencils[i := stencils[i].(size := size)];
        i := i + 1;
      }
    }

    /** AddChild (lines 26-32). */
    method AddChild(child: nat)
      modifies this
      ensures children == AddChildTo(old(children), child)
      ensures stencils == old(stencils) && size == old(size) && position == old(position) && parent == old(parent)
    {
      if |children| >= 2 {
        children := children[..|children| - 1] + [child] + [children[|children| - 1]];
      } else {
        children := children + [child];
      }
    }
  }
}
