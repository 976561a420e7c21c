/**
 * Deleting a pane (`remove` in src/App.tsx), in the source's three passes
 * over each list: filter out the target (never the root), run the deletion
 * on every non-empty child list, then drop every non-root parent that has been
 * left without children.
 */
module Removal {
  import opened Panes

  /** The first pass keeps a container unless it is the target; the root is always kept. */
  predicate Spared(c: Container, id: string)
  {
    c.id != id || c.id == RootId
  }

  /** The third pass keeps a container unless it is a non-root parent with no children left. */
  predicate Kept(c: Container)
  {
    |c.children| > 0 || !c.isParent || c.id == RootId
  }

  /**
   * The second pass: each container of `xs` with a non-empty child list gets
   * that list run through the deletion; the others are copied as they are.
   */
  function PruneEach(xs: seq<Container>, id: string): (r: seq<Container>)
    ensures |r| == |xs|
    ensures forall i :: 0 <= i < |xs| ==> Strip(r[i]) == Strip(xs[i])
    decreases Size(xs), 0
  {
    if xs == [] then []
    else
      var c := xs[0];
      // the guard mirrors the source's `child.childrens.length > 0`;
      // PruneEachAt shows that it makes no difference to the result
      var pruned := if |c.children| > 0 then c.(children := Remove(c.children, id)) else c;
      [pruned] + PruneEach(xs[1..], id)
  }

  /** The container as it leaves the second pass. */
  function Pruned(c: Container, id: string): Container
  {
    c.(children := Remove(c.children, id))
  }

  function Remove(data: seq<Container>, id: string): (r: seq<Container>)
    // no survivor is the target (unless it is the root) or a hollow non-root parent
    ensures forall c :: c in r ==> Spared(c, id) && Kept(c)
    decreases Size(data), 1
  {
    var spared := Filter(data, c => Spared(c, id));
    SubseqSize(spared, data);
    var pruned := PruneEach(spared, id);
    var kept := Filter(pruned, Kept);
    SubseqMembers(kept, pruned);
    assert forall c :: c in pruned ==> Spared(c, id) by {
      forall c | c in pruned ensures Spared(c, id) {
        var i :| 0 <= i < |pruned| && pruned[i] == c;
        assert spared[i] in spared;
      }
    }
    kept
  }

  /** The second pass replaces each child list by its pruned form; an empty list stays empty. */
  lemma {:induction false} PruneEachAt(xs: seq<Container>, id: string, i: nat)
    requires i < |xs|
    ensures PruneEach(xs, id)[i] == Pruned(xs[i], id)
  {
    if i > 0 {
      PruneEachAt(xs[1..], id, i - 1);
    } else if xs[0].children == [] {
      assert Filter([], (c: Container) => Spared(c, id)) == [];
      assert Remove([], id) == [];
    }
  }

  /**
   * The three passes act one container at a time: the head of the list
   * survives, with its children pruned, exactly when it passes both filters.
   */
  lemma RemoveCons(data: seq<Container>, id: string)
    requires data != []
    ensures Remove(data, id) ==
      (if Spared(data[0], id) && Kept(Pruned(data[0], id)) then [Pruned(data[0], id)] else []) +
      Remove(data[1..], id)
  {
    var spared := Filter(data, c => Spared(c, id));
    var rest := Filter(data[1..], c => Spared(c, id));
    if Spared(data[0], id) {
      assert spared == [data[0]] + rest;
      PruneEachCons(spared, id);
      assert spared[1..] == rest;
    } else {
      assert spared == rest;
    }
  }

  /** The second pass, unfolded along the first container. */
  lemma PruneEachCons(xs: seq<Container>, id: string)
    requires xs != []
    ensures PruneEach(xs, id) == [Pruned(xs[0], id)] + PruneEach(xs[1..], id)
  {
    PruneEachAt(xs, id, 0);
  }

  /** The survivors of a level come from the input, in the input's order, with all their own fields. */
  lemma RemoveOrder(data: seq<Container>, id: string)
    ensures IsSubseq(Heads(Remove(data, id)), Heads(data))
  {
    var spared := Filter(data, c => Spared(c, id));
    var pruned := PruneEach(spared, id);
    var kept := Filter(pruned, Kept);
    SubseqHeads(kept, pruned);
    assert Heads(pruned) == Heads(spared);
    SubseqHeads(spared, data);
    SubseqTransitive(Heads(kept), Heads(spared), Heads(data));
  }

  /**
   * A survivor is never the target (unless it is the root) and never a hollow
   * parent, and it is a container of the input with its children pruned.
   */
  lemma RemoveSurvivors(data: seq<Container>, id: string)
    ensures forall c :: c in Remove(data, id) ==> Spared(c, id) && Kept(c)
    ensures forall c :: c in Remove(data, id) ==> exists d :: d in data && c == Pruned(d, id)
  {
    var spared := Filter(data, c => Spared(c, id));
    var pruned := PruneEach(spared, id);
    var kept := Filter(pruned, Kept);
    SubseqMembers(spared, data);
    SubseqMembers(kept, pruned);
    forall c | c in kept ensures Spared(c, id) && exists d :: d in data && c == Pruned(d, id) {
      var i :| 0 <= i < |pruned| && pruned[i] == c;
      PruneEachAt(spared, id, i);
      assert spared[i] in spared;
    }
  }

  /** Every container of the input that passes both filters survives, with its children pruned. */
  lemma RemoveComplete(data: seq<Container>, id: string)
    ensures forall i :: 0 <= i < |data| && Spared(data[i], id) && Kept(Pruned(data[i], id)) ==>
      Pruned(data[i], id) in Remove(data, id)
  {
    var spared := Filter(data, c => Spared(c, id));
    var pruned := PruneEach(spared, id);
    forall i | 0 <= i < |data| && Spared(data[i], id) && Kept(Pruned(data[i], id))
      ensures Pruned(data[i], id) in Filter(pruned, Kept)
    {
      assert data[i] in spared;
      var j :| 0 <= j < |spared| && spared[j] == data[i];
      PruneEachAt(spared, id, j);
      assert pruned[j] in pruned;
    }
  }

  /** Deleting an id other than the root's leaves no container with that id anywhere. */
  lemma {:induction false} RemoveErases(data: seq<Container>, id: string)
    requires id != RootId
    ensures !Occurs(Remove(data, id), id)
    decreases data
  {
    RemoveSurvivors(data, id);
    forall c | c in Remove(data, id) ensures c.id != id && !Occurs(c.children, id) {
      var d :| d in data && c == Pruned(d, id);
      RemoveErases(d.children, id);
    }
  }

  /** Deleting never brings in an id. */
  lemma {:induction false} RemoveIds(data: seq<Container>, id: string, x: string)
    requires Occurs(Remove(data, id), x)
    ensures Occurs(data, x)
    decreases data
  {
    RemoveSurvivors(data, id);
    var c :| c in Remove(data, id) && (c.id == x || Occurs(c.children, x));
    var d :| d in data && c == Pruned(d, id);
    if c.id != x {
      RemoveIds(d.children, id, x);
    }
  }

  /** After a deletion no non-root container anywhere is a parent without children. */
  lemma {:induction false} RemoveNoHollow(data: seq<Container>, id: string)
    ensures NoHollow(Remove(data, id))
    decreases data
  {
    RemoveSurvivors(data, id);
    forall c | c in Remove(data, id) ensures NoHollow(c.children) {
      var d :| d in data && c == Pruned(d, id);
      RemoveNoHollow(d.children, id);
    }
  }

  /** A container with the root id survives its level, even when it is the target or childless. */
  lemma RemoveKeepsRoot(data: seq<Container>, id: string, i: nat)
    requires i < |data| && data[i].id == RootId
    ensures Pruned(data[i], id) in Remove(data, id)
  {
    RemoveComplete(data, id);
  }

  /**
   * Deleting an id that occurs nowhere from a tree without hollow parents
   * gives back the same tree.
   */
  lemma {:induction false} RemoveAbsent(data: seq<Container>, id: string)
    requires !Occurs(data, id) && NoHollow(data)
    ensures Remove(data, id) == data
    decreases data
  {
    FilterAll(data, c => Spared(c, id));
    var pruned := PruneEach(data, id);
    forall i | 0 <= i < |data| ensures pruned[i] == data[i] {
      assert data[i] in data;
      PruneEachAt(data, id, i);
      RemoveAbsent(data[i].children, id);
    }
    assert pruned == data;
    FilterAll(data, Kept);
  }
}
