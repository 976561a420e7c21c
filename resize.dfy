/**
 * Dragging the divider between two sibling panes (`resize` in src/App.tsx).
 * The container with the given id keeps its own fields; on the axis chosen by
 * the orientation its first child shrinks by the drag delta and its second
 * child grows by it. Every other container is copied and the resize runs on
 * its children.
 *
 * The source reads `childrens[0].width` and `childrens[1].width` without a
 * guard, so on a matching container with fewer than two children it throws;
 * the model returns None exactly then.
 */
module Resizing {
  import opened Panes

  /**
   * Every container with id `pid` that the resize reaches (one without an
   * ancestor carrying that id) has at least two children.
   */
  predicate Resizable(data: seq<Container>, pid: string)
  {
    forall c :: c in data ==> if c.id == pid then |c.children| >= 2 else Resizable(c.children, pid)
  }

  /**
   * `after` is the child list of the matched container once the first two
   * children of `before` have been resized: exactly two children, which differ
   * from the first two of `before` only in width and height; on the axis of
   * the drag the first loses `dw` (or `dh`) and the second gains it, and the
   * other axis stays as it was.
   */
  predicate Resized(before: seq<Container>, after: seq<Container>, dw: int, dh: int, o: Orientation)
  {
    |before| >= 2 && |after| == 2 &&
    after[0].(width := before[0].width, height := before[0].height) == before[0] &&
    after[1].(width := before[1].width, height := before[1].height) == before[1] &&
    match o
    case Vertical =>
      after[0].width == before[0].width - dw && after[1].width == before[1].width + dw &&
      after[0].height == before[0].height && after[1].height == before[1].height
    case Horizontal =>
      after[0].height == before[0].height - dh && after[1].height == before[1].height + dh &&
      after[0].width == before[0].width && after[1].width == before[1].width
  }

  /** The matched container with its first two children resized and any further ones dropped. */
  function ResizePair(c: Container, dw: int, dh: int, o: Orientation): (r: Container)
    requires |c.children| >= 2
    ensures Strip(r) == Strip(c) && Resized(c.children, r.children, dw, dh, o)
  {
    var first := c.children[0];
    var second := c.children[1];
    c.(children := [
      first.(width := if o == Vertical then first.width - dw else first.width,
             height := if o == Vertical then first.height else first.height - dh),
      second.(width := if o == Vertical then second.width + dw else second.width,
              height := if o == Vertical then second.height else second.height + dh)])
  }

  function Resize(data: seq<Container>, pid: string, dw: int, dh: int, o: Orientation): (r: Option<seq<Container>>)
    // the source throws exactly when a matched container has fewer than two children
    ensures r.Some? <==> Resizable(data, pid)
    ensures r.Some? ==> |r.value| == |data|
    decreases data
  {
    if data == [] then Some([])
    else
      var head := ResizeNode(data[0], pid, dw, dh, o);
      var tail := Resize(data[1..], pid, dw, dh, o);
      assert forall c :: c in data ==> c == data[0] || c in data[1..];
      if head.None? || tail.None? then None else Some([head.value] + tail.value)
  }

  function ResizeNode(c: Container, pid: string, dw: int, dh: int, o: Orientation): (r: Option<Container>)
    // fails exactly when the container, or one the resize reaches below it, is matched with too few children
    ensures r.Some? <==> Resizable([c], pid)
    ensures r.Some? ==> Strip(r.value) == Strip(c)
    ensures r.Some? && c.id == pid ==> Resized(c.children, r.value.children, dw, dh, o)
    ensures r.Some? && c.id != pid ==> |r.value.children| == |c.children|
    decreases c
  {
    if c.id == pid then
      if |c.children| < 2 then None else Some(ResizePair(c, dw, dh, o))
    else
      var kids := Resize(c.children, pid, dw, dh, o);
      if kids.None? then None else Some(c.(children := kids.value))
  }

  /** Resize works container by container. */
  lemma {:induction false} ResizeAt(data: seq<Container>, pid: string, dw: int, dh: int, o: Orientation, i: nat)
    requires Resize(data, pid, dw, dh, o).Some? && i < |data|
    ensures ResizeNode(data[i], pid, dw, dh, o).Some?
    ensures Resize(data, pid, dw, dh, o).value[i] == ResizeNode(data[i], pid, dw, dh, o).value
    decreases data
  {
    if i > 0 {
      ResizeAt(data[1..], pid, dw, dh, o, i - 1);
    }
  }

  /**
   * One level of a resize: every container keeps its own fields; a matched one
   * gets its first two children resized, any other one keeps its number of
   * children.
   */
  lemma ResizeLevel(data: seq<Container>, pid: string, dw: int, dh: int, o: Orientation)
    requires Resize(data, pid, dw, dh, o).Some?
    ensures forall i :: 0 <= i < |data| ==>
      Strip(Resize(data, pid, dw, dh, o).value[i]) == Strip(data[i])
    ensures forall i :: 0 <= i < |data| && data[i].id == pid ==>
      Resized(data[i].children, Resize(data, pid, dw, dh, o).value[i].children, dw, dh, o)
    ensures forall i :: 0 <= i < |data| && data[i].id != pid ==>
      |Resize(data, pid, dw, dh, o).value[i].children| == |data[i].children|
  {
    forall i | 0 <= i < |data| {
      ResizeAt(data, pid, dw, dh, o, i);
    }
  }

  /**
   * A container that neither has the id nor lies below one keeps its place,
   * every field but its children, and the number of its children.
   */
  lemma {:induction false} ResizeKeepsOthers(data: seq<Container>, p: seq<nat>, pid: string, dw: int, dh: int, o: Orientation)
    requires Get(data, p).Some? && Get(data, p).value.id != pid
    requires ClearAbove(data, p, pid)
    requires Resize(data, pid, dw, dh, o).Some?
    ensures Get(Resize(data, pid, dw, dh, o).value, p).Some?
    ensures Strip(Get(Resize(data, pid, dw, dh, o).value, p).value) == Strip(Get(data, p).value)
    ensures |Get(Resize(data, pid, dw, dh, o).value, p).value.children| == |Get(data, p).value.children|
    decreases p
  {
    ResizeAt(data, pid, dw, dh, o, p[0]);
    if |p| > 1 {
      ResizeKeepsOthers(data[p[0]].children, p[1..], pid, dw, dh, o);
    }
  }

  /** A resize creates no hollow parent: it changes sizes only, and drops no child of a parent it keeps. */
  lemma {:induction false} ResizeNoHollow(data: seq<Container>, pid: string, dw: int, dh: int, o: Orientation)
    requires NoHollow(data) && Resize(data, pid, dw, dh, o).Some?
    ensures NoHollow(Resize(data, pid, dw, dh, o).value)
    decreases data
  {
    var r := Resize(data, pid, dw, dh, o).value;
    forall c | c in r ensures (c.isParent && c.id != RootId ==> c.children != []) && NoHollow(c.children) {
      var i :| 0 <= i < |r| && r[i] == c;
      var d := data[i];
      assert d in data;
      ResizeAt(data, pid, dw, dh, o, i);
      if d.id == pid {
        assert d.children[0] in d.children && d.children[1] in d.children;
        assert forall l :: l in c.children ==> l == c.children[0] || l == c.children[1];
        assert c.children[0].isParent == d.children[0].isParent && c.children[0].children == d.children[0].children;
        assert c.children[1].isParent == d.children[1].isParent && c.children[1].children == d.children[1].children;
        assert c.children[0].id == d.children[0].id && c.children[1].id == d.children[1].id;
      } else {
        ResizeNoHollow(d.children, pid, dw, dh, o);
      }
    }
  }

  /** Resizing under an id that occurs nowhere gives back the same tree. */
  lemma {:induction false} ResizeAbsent(data: seq<Container>, pid: string, dw: int, dh: int, o: Orientation)
    requires !Occurs(data, pid)
    ensures Resize(data, pid, dw, dh, o) == Some(data)
    decreases data
  {
    if data != [] {
      OccursUnfold(data, pid);
      ResizeAbsent(data[0].children, pid, dw, dh, o);
      ResizeAbsent(data[1..], pid, dw, dh, o);
      assert data == [data[0]] + data[1..];
    }
  }

  /**
   * The first container with the id along a path gets its first two children
   * resized, and nothing else at that position changes: on the axis of the drag
   * the two sizes still add up to what they did.
   */
  lemma {:induction false} ResizeTarget(data: seq<Container>, p: seq<nat>, pid: string, dw: int, dh: int, o: Orientation)
    requires Get(data, p).Some? && Get(data, p).value.id == pid
    requires ClearAbove(data, p, pid)
    requires Resize(data, pid, dw, dh, o).Some?
    ensures |Get(data, p).value.children| >= 2
    ensures Get(Resize(data, pid, dw, dh, o).value, p) == Some(ResizePair(Get(data, p).value, dw, dh, o))
    ensures var before := Get(data, p).value.children;
            var after := Get(Resize(data, pid, dw, dh, o).value, p).value.children;
            match o
            case Vertical => after[0].width + after[1].width == before[0].width + before[1].width
            case Horizontal => after[0].height + after[1].height == before[0].height + before[1].height
    decreases p
  {
    ResizeAt(data, pid, dw, dh, o, p[0]);
    if |p| > 1 {
      ResizeTarget(data[p[0]].children, p[1..], pid, dw, dh, o);
    }
  }

  /**
   * Two resizes of the same divider add up: applying a delta to the result of
   * another gives what the sum of the deltas gives on the original tree.
   */
  lemma {:induction false} ResizeAdditive(data: seq<Container>, pid: string, dw1: int, dh1: int, dw2: int, dh2: int, o: Orientation)
    requires Resize(data, pid, dw1, dh1, o).Some?
    ensures Resize(Resize(data, pid, dw1, dh1, o).value, pid, dw2, dh2, o) == Resize(data, pid, dw1 + dw2, dh1 + dh2, o)
    decreases data, 1
  {
    if data != [] {
      var once := Resize(data, pid, dw1, dh1, o).value;
      ResizeAt(data, pid, dw1, dh1, o, 0);
      ResizeNodeAdditive(data[0], pid, dw1, dh1, dw2, dh2, o);
      ResizeAdditive(data[1..], pid, dw1, dh1, dw2, dh2, o);
      assert once[1..] == Resize(data[1..], pid, dw1, dh1, o).value;
    }
  }

  lemma {:induction false} ResizeNodeAdditive(c: Container, pid: string, dw1: int, dh1: int, dw2: int, dh2: int, o: Orientation)
    requires ResizeNode(c, pid, dw1, dh1, o).Some?
    ensures ResizeNode(ResizeNode(c, pid, dw1, dh1, o).value, pid, dw2, dh2, o) == ResizeNode(c, pid, dw1 + dw2, dh1 + dh2, o)
    decreases c, 0
  {
    if c.id != pid {
      ResizeAdditive(c.children, pid, dw1, dh1, dw2, dh2, o);
    }
  }
}
