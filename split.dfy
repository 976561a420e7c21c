/**
 * Splitting a pane (`update` in src/App.tsx). Every container whose id is the
 * target becomes a parent of the requested orientation with two new full-size
 * leaves; every other container is copied and the split runs on its children.
 */
module Splitting {
  import opened Panes

  /**
   * The target container after the split: same id, colour and size, the
   * requested orientation, and two new leaves. The first leaf takes over the
   * target's colour, the second gets the fresh one; both are "v" whatever
   * orientation was asked for. Whatever children the target had are replaced.
   */
  function SplitNode(c: Container, o: Orientation, f: Fresh): (r: Container)
    ensures r.id == c.id && r.color == c.color && r.width == c.width && r.height == c.height
    ensures r.orientation == o && r.isParent && |r.children| == 2
    ensures r.children[0].id == f.firstId && r.children[0].color == c.color
    ensures r.children[1].id == f.secondId && r.children[1].color == f.color
    ensures forall k :: 0 <= k < 2 ==>
      r.children[k].orientation == Vertical && !r.children[k].isParent && r.children[k].children == [] &&
      r.children[k].width == 100 && r.children[k].height == 100
  {
    c.(orientation := o, isParent := true,
       children := [NewLeaf(f.firstId, c.color), NewLeaf(f.secondId, f.color)])
  }

  function Update(data: seq<Container>, id: string, o: Orientation, f: Fresh): (r: seq<Container>)
    // one container out for each container in, in the same order
    ensures |r| == |data|
    ensures forall i :: 0 <= i < |data| ==>
      r[i].id == data[i].id && r[i].color == data[i].color &&
      r[i].width == data[i].width && r[i].height == data[i].height
    ensures forall i :: 0 <= i < |data| && data[i].id == id ==>
      r[i].orientation == o && r[i].isParent &&
      r[i].children == [NewLeaf(f.firstId, data[i].color), NewLeaf(f.secondId, f.color)]
    ensures forall i :: 0 <= i < |data| && data[i].id != id ==>
      Strip(r[i]) == Strip(data[i]) && |r[i].children| == |data[i].children|
    decreases data
  {
    if data == [] then []
    else [UpdateNode(data[0], id, o, f)] + Update(data[1..], id, o, f)
  }

  function UpdateNode(c: Container, id: string, o: Orientation, f: Fresh): (r: Container)
    ensures r.id == c.id && r.color == c.color && r.width == c.width && r.height == c.height
    ensures c.id == id ==> r == SplitNode(c, o, f)
    ensures c.id != id ==> Strip(r) == Strip(c) && |r.children| == |c.children|
    decreases c
  {
    if c.id == id then SplitNode(c, o, f)
    else c.(children := Update(c.children, id, o, f))
  }

  /** Update works container by container. */
  lemma {:induction false} UpdateAt(data: seq<Container>, id: string, o: Orientation, f: Fresh, i: nat)
    requires i < |data|
    ensures Update(data, id, o, f)[i] == UpdateNode(data[i], id, o, f)
    decreases data
  {
    if i > 0 {
      UpdateAt(data[1..], id, o, f, i - 1);
    }
  }

  /** Splitting an id that occurs nowhere gives back the same tree. */
  lemma {:induction false} UpdateAbsent(data: seq<Container>, id: string, o: Orientation, f: Fresh)
    requires !Occurs(data, id)
    ensures Update(data, id, o, f) == data
    decreases data
  {
    if data != [] {
      OccursUnfold(data, id);
      UpdateAbsent(data[0].children, id, o, f);
      UpdateAbsent(data[1..], id, o, f);
    }
  }

  /**
   * The first container with the target id along a path is replaced by its
   * split form, at the same position.
   */
  lemma {:induction false} UpdateSplitsTarget(data: seq<Container>, p: seq<nat>, id: string, o: Orientation, f: Fresh)
    requires Get(data, p).Some? && Get(data, p).value.id == id
    requires ClearAbove(data, p, id)
    ensures Get(Update(data, id, o, f), p) == Some(SplitNode(Get(data, p).value, o, f))
    decreases p
  {
    UpdateAt(data, id, o, f, p[0]);
    if |p| > 1 {
      UpdateSplitsTarget(data[p[0]].children, p[1..], id, o, f);
    }
  }

  /**
   * A container that neither has the target id nor lies below one keeps its
   * place, every field but its children, and the number of its children.
   */
  lemma {:induction false} UpdateKeepsOthers(data: seq<Container>, p: seq<nat>, id: string, o: Orientation, f: Fresh)
    requires Get(data, p).Some? && Get(data, p).value.id != id
    requires ClearAbove(data, p, id)
    ensures Get(Update(data, id, o, f), p).Some?
    ensures Strip(Get(Update(data, id, o, f), p).value) == Strip(Get(data, p).value)
    ensures |Get(Update(data, id, o, f), p).value.children| == |Get(data, p).value.children|
    decreases p
  {
    UpdateAt(data, id, o, f, p[0]);
    if |p| > 1 {
      UpdateKeepsOthers(data[p[0]].children, p[1..], id, o, f);
    }
  }

  /** A split brings in no ids other than the two fresh ones. */
  lemma {:induction false} UpdateIds(data: seq<Container>, id: string, o: Orientation, f: Fresh, x: string)
    ensures Occurs(Update(data, id, o, f), x) ==> Occurs(data, x) || x == f.firstId || x == f.secondId
    decreases data
  {
    var r := Update(data, id, o, f);
    if data != [] && Occurs(r, x) {
      OccursUnfold(r, x);
      OccursUnfold(data, x);
      assert r[1..] == Update(data[1..], id, o, f);
      if Occurs(r[1..], x) {
        UpdateIds(data[1..], id, o, f, x);
      } else if data[0].id != id {
        UpdateAt(data, id, o, f, 0);
        UpdateIds(data[0].children, id, o, f, x);
      } else if Occurs(r[0].children, x) {
        OccursUnfold(r[0].children, x);
        OccursUnfold(r[0].children[1..], x);
      }
    }
  }

  /** A split creates no hollow parent: the target gets two leaves, nothing else loses children. */
  lemma {:induction false} UpdateNoHollow(data: seq<Container>, id: string, o: Orientation, f: Fresh)
    requires NoHollow(data)
    ensures NoHollow(Update(data, id, o, f))
    decreases data, 1
  {
    var r := Update(data, id, o, f);
    forall c | c in r ensures (c.isParent && c.id != RootId ==> c.children != []) && NoHollow(c.children) {
      var i :| 0 <= i < |r| && r[i] == c;
      assert data[i] in data;
      UpdateAt(data, id, o, f, i);
      UpdateNodeNoHollow(data[i], id, o, f);
    }
  }

  lemma {:induction false} UpdateNodeNoHollow(c: Container, id: string, o: Orientation, f: Fresh)
    requires (c.isParent && c.id != RootId ==> c.children != []) && NoHollow(c.children)
    ensures var u := UpdateNode(c, id, o, f);
      (u.isParent && u.id != RootId ==> u.children != []) && NoHollow(u.children)
    decreases c, 0
  {
    if c.id == id {
      var leaves := [NewLeaf(f.firstId, c.color), NewLeaf(f.secondId, f.color)];
      assert UpdateNode(c, id, o, f).children == leaves;
      assert forall l :: l in leaves ==> l == leaves[0] || l == leaves[1];
      assert NoHollow(leaves[0].children) && NoHollow(leaves[1].children);
    } else {
      UpdateNoHollow(c.children, id, o, f);
    }
  }

  /**
   * When the target id occurs, both fresh ids occur afterwards: some container
   * with the target id was split.
   */
  lemma {:induction false} UpdateAddsFresh(data: seq<Container>, id: string, o: Orientation, f: Fresh)
    requires Occurs(data, id)
    ensures Occurs(Update(data, id, o, f), f.firstId) && Occurs(Update(data, id, o, f), f.secondId)
    decreases data
  {
    var r := Update(data, id, o, f);
    OccursUnfold(data, id);
    assert r[1..] == Update(data[1..], id, o, f);
    if data[0].id == id {
      var leaves := r[0].children;
      assert leaves == [NewLeaf(f.firstId, data[0].color), NewLeaf(f.secondId, f.color)];
      assert leaves[0] in leaves && leaves[1] in leaves;
      assert Occurs(leaves, f.firstId) && Occurs(leaves, f.secondId);
      assert r[0] in r;
    } else if Occurs(data[0].children, id) {
      UpdateAt(data, id, o, f, 0);
      UpdateAddsFresh(data[0].children, id, o, f);
      assert r[0] in r;
    } else {
      UpdateAddsFresh(data[1..], id, o, f);
      OccursUnfold(r, f.firstId);
      OccursUnfold(r, f.secondId);
    }
  }
}
