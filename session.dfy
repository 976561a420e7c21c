/**
 * A whole editing session from the mounted tree: split the root side by side,
 * split its first pane stacked, then delete panes one by one. It shows the
 * three operations working together, including the two quirks of deletion: a
 * parent left with a single child is not collapsed, and a parent left with
 * none is dropped, except the root, which stays even as a childless parent.
 */
module Session {
  import opened Panes
  import opened Splitting
  import opened Removal
  import opened Resizing

  predicate DistinctIds(f1: Fresh, f2: Fresh)
  {
    var ids := [RootId, f1.firstId, f1.secondId, f2.firstId, f2.secondId];
    forall i, j :: 0 <= i < j < |ids| ==> ids[i] != ids[j]
  }

  lemma EditingSession(color: string, f1: Fresh, f2: Fresh)
    requires DistinctIds(f1, f2)
    ensures var t1 := Update(InitialTree(color), RootId, Vertical, f1);
      t1 == [Container(RootId, Vertical, color, 100, 100, true,
               [NewLeaf(f1.firstId, color), NewLeaf(f1.secondId, f1.color)])]
    ensures Update(Update(InitialTree(color), RootId, Vertical, f1), f1.firstId, Horizontal, f2) ==
      SplitTwice(color, f1, f2)
  {
    var ids := [RootId, f1.firstId, f1.secondId, f2.firstId, f2.secondId];
    assert ids[0] != ids[1] && ids[1] != ids[2];
    var t1 := Update(InitialTree(color), RootId, Vertical, f1);
    assert t1 == [Container(RootId, Vertical, color, 100, 100, true,
                   [NewLeaf(f1.firstId, color), NewLeaf(f1.secondId, f1.color)])];
    var kids := t1[0].children;
    var kids2 := Update(kids, f1.firstId, Horizontal, f2);
    assert kids2[0] == Container(f1.firstId, Horizontal, color, 100, 100, true,
                         [NewLeaf(f2.firstId, color), NewLeaf(f2.secondId, f2.color)]);
    UpdateAt(kids, f1.firstId, Horizontal, f2, 1);
    assert kids2[1] == NewLeaf(f1.secondId, f1.color);
    assert kids2 == [kids2[0], kids2[1]];
    UpdateAt(t1, f1.firstId, Horizontal, f2, 0);
    var t2 := Update(t1, f1.firstId, Horizontal, f2);
    assert t2 == [t2[0]];
  }

  /**
   * Dragging the divider of the root after the first split: the left pane
   * loses the delta in width, the right pane gains it, heights stay at 100.
   */
  lemma DragSession(color: string, f1: Fresh, dw: int, dh: int)
    ensures Resize([Container(RootId, Vertical, color, 100, 100, true,
                     [NewLeaf(f1.firstId, color), NewLeaf(f1.secondId, f1.color)])], RootId, dw, dh, Vertical) ==
      Some([Container(RootId, Vertical, color, 100, 100, true,
              [NewLeaf(f1.firstId, color).(width := 100 - dw), NewLeaf(f1.secondId, f1.color).(width := 100 + dw)])])
  {
    var t1 := [Container(RootId, Vertical, color, 100, 100, true,
                 [NewLeaf(f1.firstId, color), NewLeaf(f1.secondId, f1.color)])];
    assert Resizable(t1, RootId);
    ResizeAt(t1, RootId, dw, dh, Vertical, 0);
    var r := Resize(t1, RootId, dw, dh, Vertical).value;
    assert r == [r[0]];
    assert ResizePair(t1[0], dw, dh, Vertical) == Container(RootId, Vertical, color, 100, 100, true,
              [NewLeaf(f1.firstId, color).(width := 100 - dw), NewLeaf(f1.secondId, f1.color).(width := 100 + dw)]);
  }

  /** The tree after the two splits of EditingSession. */
  function SplitTwice(color: string, f1: Fresh, f2: Fresh): seq<Container>
  {
    [Container(RootId, Vertical, color, 100, 100, true,
       [Container(f1.firstId, Horizontal, color, 100, 100, true,
          [NewLeaf(f2.firstId, color), NewLeaf(f2.secondId, f2.color)]),
        NewLeaf(f1.secondId, f1.color)])]
  }

  /** Deleting the upper pane of the stacked pair: its parent keeps the single other pane. */
  lemma FirstDeletion(color: string, f1: Fresh, f2: Fresh)
    requires DistinctIds(f1, f2)
    ensures Remove(SplitTwice(color, f1, f2), f2.firstId) ==
      [Container(RootId, Vertical, color, 100, 100, true,
         [Container(f1.firstId, Horizontal, color, 100, 100, true, [NewLeaf(f2.secondId, f2.color)]),
          NewLeaf(f1.secondId, f1.color)])]
  {
    var ids := [RootId, f1.firstId, f1.secondId, f2.firstId, f2.secondId];
    assert ids[0] != ids[3] && ids[1] != ids[3] && ids[2] != ids[3] && ids[4] != ids[3];
    var g2 := NewLeaf(f2.secondId, f2.color);
    var l2 := NewLeaf(f1.secondId, f1.color);
    var c1 := Container(f1.firstId, Horizontal, color, 100, 100, true, [NewLeaf(f2.firstId, color), g2]);
    RemovePairLeavesOne(c1.children, f2.firstId);
    assert Remove(c1.children, f2.firstId) == [g2];
    RemoveCons([l2], f2.firstId);
    RemoveCons([c1, l2], f2.firstId);
    assert Remove([c1, l2], f2.firstId) == [c1.(children := [g2]), l2];
    RemoveCons(SplitTwice(color, f1, f2), f2.firstId);
  }

  /** Deleting the first of two leaves under a parent leaves the second. */
  lemma RemovePairLeavesOne(kids: seq<Container>, id: string)
    requires |kids| == 2 && kids[0].id == id && id != RootId
    requires kids[1].id != id && !kids[1].isParent && kids[0].children == []
    requires kids[1].children == []
    ensures Remove(kids, id) == [kids[1]]
  {
    RemoveCons(kids, id);
    RemoveCons(kids[1..], id);
  }

  /** Deleting the last pane of the stacked pair: the hollow parent is dropped as well. */
  lemma SecondDeletion(color: string, f1: Fresh, f2: Fresh)
    requires DistinctIds(f1, f2)
    ensures Remove([Container(RootId, Vertical, color, 100, 100, true,
                     [Container(f1.firstId, Horizontal, color, 100, 100, true, [NewLeaf(f2.secondId, f2.color)]),
                      NewLeaf(f1.secondId, f1.color)])], f2.secondId) ==
      [Container(RootId, Vertical, color, 100, 100, true, [NewLeaf(f1.secondId, f1.color)])]
  {
    var ids := [RootId, f1.firstId, f1.secondId, f2.firstId, f2.secondId];
    assert ids[0] != ids[4] && ids[1] != ids[4] && ids[2] != ids[4];
    var g2 := NewLeaf(f2.secondId, f2.color);
    var l2 := NewLeaf(f1.secondId, f1.color);
    var c1 := Container(f1.firstId, Horizontal, color, 100, 100, true, [g2]);
    RemoveCons([g2], f2.secondId);
    RemoveCons([l2], f2.secondId);
    RemoveCons([c1, l2], f2.secondId);
    assert Remove([c1, l2], f2.secondId) == [l2];
    RemoveCons([Container(RootId, Vertical, color, 100, 100, true, [c1, l2])], f2.secondId);
  }

  /** Deleting the only child of the root: the root stays, as a parent without children. */
  lemma ThirdDeletion(color: string, f1: Fresh)
    requires f1.secondId != RootId
    ensures Remove([Container(RootId, Vertical, color, 100, 100, true, [NewLeaf(f1.secondId, f1.color)])], f1.secondId) ==
      [Container(RootId, Vertical, color, 100, 100, true, [])]
  {
    var l2 := NewLeaf(f1.secondId, f1.color);
    RemoveCons([l2], f1.secondId);
    RemoveCons([Container(RootId, Vertical, color, 100, 100, true, [l2])], f1.secondId);
  }
}
