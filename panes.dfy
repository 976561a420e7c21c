/**
 * The pane tree of the layout editor: a list of containers, each of which is
 * a rectangular pane that either shows a colour (a leaf) or is split into
 * child panes laid out side by side ("v") or stacked ("h").
 *
 * Widths and heights are percentages of the parent's box. They start at 100
 * and only ever change by adding or subtracting a drag delta, so they are
 * modelled as unbounded integers.
 */
module Panes {

  /** The `type` field of a container: "v" or "h". */
  datatype Orientation = Vertical | Horizontal

  datatype Container = Container(
    id: string,
    orientation: Orientation,
    color: string,
    width: int,
    height: int,
    isParent: bool,
    children: seq<Container>)

  datatype Option<T> = None | Some(value: T)

  /** The reserved id of the pane that exists from start-up and is never deleted. */
  const RootId: string := "root"

  /** The identifiers and the colour that the editor draws at random for one split. */
  datatype Fresh = Fresh(firstId: string, secondId: string, color: string)

  /** A full-size leaf, as a split creates it. */
  function NewLeaf(id: string, color: string): Container
  {
    Container(id, Vertical, color, 100, 100, false, [])
  }

  /** The tree the editor mounts with: one full-size leaf carrying the root id. */
  function InitialTree(color: string): (t: seq<Container>)
    ensures |t| == 1 && t[0].id == RootId && t[0].color == color && t[0].orientation == Vertical
    ensures t[0].width == 100 && t[0].height == 100 && !t[0].isParent && t[0].children == []
    ensures NoHollow(t) && Size(t) == 1
  {
    [NewLeaf(RootId, color)]
  }

  /** A container with its subtree cut off: every field except the children. */
  function Strip(c: Container): Container
  {
    c.(children := [])
  }

  /** The stripped containers of one level, in order. */
  function Heads(s: seq<Container>): (h: seq<Container>)
    ensures |h| == |s|
    ensures forall i :: 0 <= i < |s| ==> h[i] == Strip(s[i])
  {
    if s == [] then [] else [Strip(s[0])] + Heads(s[1..])
  }

  /** The number of containers in the forest `data`. */
  function Size(data: seq<Container>): nat
  {
    if data == [] then 0 else 1 + Size(data[0].children) + Size(data[1..])
  }

  /** Some container anywhere in the forest `data` has id `x`. */
  predicate Occurs(data: seq<Container>, x: string)
  {
    exists c :: c in data && (c.id == x || Occurs(c.children, x))
  }

  /** Occurs, unfolded along the first container of a non-empty list. */
  lemma OccursUnfold(s: seq<Container>, x: string)
    requires s != []
    ensures Occurs(s, x) <==> s[0].id == x || Occurs(s[0].children, x) || Occurs(s[1..], x)
  {
    if Occurs(s, x) {
      var c :| c in s && (c.id == x || Occurs(c.children, x));
      if c != s[0] {
        assert c in s[1..];
      }
    }
    if Occurs(s[1..], x) {
      var c :| c in s[1..] && (c.id == x || Occurs(c.children, x));
      assert c in s;
    }
    assert s[0] in s;
  }

  /**
   * No container of the forest other than the root is a parent whose child
   * list is empty (a "hollow" parent).
   */
  predicate NoHollow(data: seq<Container>)
  {
    forall c :: c in data ==> (c.isParent && c.id != RootId ==> c.children != []) && NoHollow(c.children)
  }

  /**
   * The container reached by following the child indices in `p`, starting at
   * the top-level list; None when an index is out of range or `p` is empty.
   */
  function Get(data: seq<Container>, p: seq<nat>): Option<Container>
    decreases p
  {
    if p == [] || p[0] >= |data| then None
    else if |p| == 1 then Some(data[p[0]])
    else Get(data[p[0]].children, p[1..])
  }

  /** Every container strictly above the end of path `p` has an id other than `id`. */
  predicate ClearAbove(data: seq<Container>, p: seq<nat>, id: string)
    decreases p
  {
    |p| <= 1 || (p[0] < |data| && data[p[0]].id != id && ClearAbove(data[p[0]].children, p[1..], id))
  }

  /** `a` is `b` with some elements left out, in the same order. */
  predicate IsSubseq<T(==)>(a: seq<T>, b: seq<T>)
    decreases |b|
  {
    a == [] || (b != [] && ((a[0] == b[0] && IsSubseq(a[1..], b[1..])) || IsSubseq(a, b[1..])))
  }

  lemma {:induction false} SubseqMembers<T>(a: seq<T>, b: seq<T>)
    requires IsSubseq(a, b)
    ensures |a| <= |b|
    ensures forall x :: x in a ==> x in b
    decreases |b|
  {
    if a != [] {
      if a[0] == b[0] && IsSubseq(a[1..], b[1..]) {
        SubseqMembers(a[1..], b[1..]);
        assert a == [a[0]] + a[1..];
      } else {
        SubseqMembers(a, b[1..]);
      }
      assert b == [b[0]] + b[1..];
    }
  }

  lemma {:induction false} SubseqTransitive<T>(a: seq<T>, b: seq<T>, c: seq<T>)
    requires IsSubseq(a, b) && IsSubseq(b, c)
    ensures IsSubseq(a, c)
    decreases |c|
  {
    if a != [] {
      assert b != [] && c != [];
      if IsSubseq(b, c[1..]) {
        SubseqTransitive(a, b, c[1..]);
      } else {
        assert b[0] == c[0] && IsSubseq(b[1..], c[1..]);
        if a[0] == b[0] && IsSubseq(a[1..], b[1..]) {
          SubseqTransitive(a[1..], b[1..], c[1..]);
        } else {
          SubseqTransitive(a, b[1..], c[1..]);
        }
      }
    }
  }

  /** Cutting off subtrees keeps a subsequence a subsequence. */
  lemma {:induction false} SubseqHeads(a: seq<Container>, b: seq<Container>)
    requires IsSubseq(a, b)
    ensures IsSubseq(Heads(a), Heads(b))
    decreases |b|
  {
    if a != [] {
      assert Heads(a)[1..] == Heads(a[1..]);
      assert Heads(b)[1..] == Heads(b[1..]);
      if a[0] == b[0] && IsSubseq(a[1..], b[1..]) {
        SubseqHeads(a[1..], b[1..]);
      } else {
        SubseqHeads(a, b[1..]);
      }
    }
  }

  /** The elements of `s` that satisfy `keep`, in order (JavaScript's Array filter). */
  function Filter<T(==)>(s: seq<T>, keep: T -> bool): (r: seq<T>)
    ensures IsSubseq(r, s)
    ensures forall x :: x in r ==> keep(x)
    ensures forall x :: x in s && keep(x) ==> x in r
    // every passing element is kept as often as it occurs, every failing one dropped
    ensures forall x {:trigger multiset(r)[x]} | x in s :: multiset(r)[x] == if keep(x) then multiset(s)[x] else 0
  {
    if s == [] then []
    else
      var rest := Filter(s[1..], keep);
      assert s == [s[0]] + s[1..];
      assert multiset(s) == multiset([s[0]]) + multiset(s[1..]);
      SubseqMembers(rest, s[1..]);
      if keep(s[0]) then
        assert ([s[0]] + rest)[1..] == rest;
        assert multiset([s[0]] + rest) == multiset([s[0]]) + multiset(rest);
        [s[0]] + rest
      else
        rest
  }

  /** Filtering a list all of whose elements pass gives back the list. */
  lemma {:induction false} FilterAll<T>(s: seq<T>, keep: T -> bool)
    requires forall x :: x in s ==> keep(x)
    ensures Filter(s, keep) == s
  {
    if s != [] {
      assert s[0] in s;
      FilterAll(s[1..], keep);
      assert s == [s[0]] + s[1..];
    }
  }

  /** Leaving out containers never makes a forest larger. */
  lemma {:induction false} SubseqSize(a: seq<Container>, b: seq<Container>)
    requires IsSubseq(a, b)
    ensures Size(a) <= Size(b)
    decreases |b|
  {
    if a != [] {
      if a[0] == b[0] && IsSubseq(a[1..], b[1..]) {
        SubseqSize(a[1..], b[1..]);
      } else {
        SubseqSize(a, b[1..]);
      }
    }
  }
}
