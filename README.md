# Pane-tree editor: a Dafny model

The editor shows one rectangular pane to start with. The user can split any
pane side by side (`"v"`) or stacked (`"h"`), drag the divider between two
sibling panes, and delete panes. The layout is a tree of `Container`
records. The editor keeps it as a list of top-level containers, which in
practice is a single container with the id `"root"`. Each user action goes
through one of three pure, recursive functions over that list: `update`
(split), `remove` (delete) and `resize` (drag). Each returns a new list. This
project models those three functions and the start-up tree, and proves what
they do.

Modules:

- `Panes` (panes.dfy): the `Container` datatype and the orientation. It
  also holds the constants: the root id, the new 100×100 leaf and the initial
  tree. Then come the notions the proofs use: `Strip` (a container without
  its subtree), `Occurs` (an id anywhere in a forest), `NoHollow` (no
  non-root parent without children), `Get` (the container at a path of child
  indices), `IsSubseq`, and `Filter`, which stands in for JavaScript's
  `Array.prototype.filter`.
- `Splitting` (split.dfy): `update`.
- `Removal` (remove.dfy): `remove`, as the source's three passes. The first
  pass (a `Filter` with `Spared`) drops the target but never the root. The
  second (`PruneEach`) runs the deletion on every non-empty child list. The
  third (a `Filter` with `Kept`) drops non-root parents left with no children.
- `Resizing` (resize.dfy): `resize`.
- `Session` (session.dfy): a whole editing session from the initial tree,
  as concrete lemmas.

Naming: the source's field `type` is `orientation` here, with `Vertical` for
`"v"` and `Horizontal` for `"h"`. The field `childrens` is `children`. The
split's randomly drawn ids and colour arrive as a `Fresh` record that the
caller passes in.

Where the code's behaviour may be unexpected, the model follows the code:

- A split on a container that already has children replaces its whole
  subtree with the two new leaves. The source has no guard for this case.
- A delete whose target is a parent removes the whole subtree.
- A parent left with one child keeps it. A parent left with none is dropped,
  except the root, which then stays as a parent without children.
- A resize of a matched container with fewer than two children throws in
  the source, because it reads `width` of `undefined`. The model returns
  `None` in exactly that case, and `Some(tree)` otherwise. When the matched
  container has more than two children, the source keeps only the first two,
  and so does the model.

## Model

| member | source | states |
|---|---|---|
| `Splitting.Update` | src/App.tsx:29-70 | One output container per input container, in order. Each keeps its id, colour, width and height. A container with the target id gets the requested orientation, becomes a parent, and has exactly two children: a 100×100 `"v"` leaf with the target's colour and the first fresh id, then a 100×100 `"v"` leaf with the second fresh id and the fresh colour. Any other container keeps every field except its children, and keeps the number of its children. |
| `Splitting.SplitNode` | src/App.tsx:35-62 | The split form keeps the target's id, colour, width and height, takes the requested orientation and becomes a parent. It has exactly two children, both childless 100×100 `"v"` leaves. The first has the first fresh id and the target's colour. The second has the second fresh id and the fresh colour. |
| `Splitting.UpdateNode` | src/App.tsx:35-68 | One container through the split: it keeps its id, colour and size. With the target id it becomes its split form. Otherwise it keeps every field but its children and the number of its children. |
| `Splitting.UpdateAt` | src/App.tsx:34-69 | The split maps over the list: position i of the result is container i after the split. |
| `Splitting.UpdateAbsent` | src/App.tsx:63-68 | When the target id occurs nowhere in the tree, the split returns the tree unchanged. |
| `Splitting.UpdateSplitsTarget` | src/App.tsx:35-62 | A container with the target id, reached along a path without that id above it, is replaced at the same path by its split form. |
| `Splitting.UpdateKeepsOthers` | src/App.tsx:63-68 | A container without the target id, reached along a path without it, is at the same path afterwards. It keeps every field except its children and keeps the number of its children. |
| `Splitting.UpdateIds` | src/App.tsx:40-61 | Every id in the result was in the input or is one of the two fresh ids. |
| `Splitting.UpdateNoHollow` | src/App.tsx:29-70 | A split of a tree without hollow non-root parents leaves none. The target gets two leaves, and no other container loses children. |
| `Splitting.UpdateNodeNoHollow` | src/App.tsx:35-68 | The same for one container and its subtree. |
| `Splitting.UpdateAddsFresh` | src/App.tsx:35-61 | When the target id occurs in the tree, both fresh ids occur in the result. |
| `Panes.InitialTree` | src/App.tsx:184-194 | The mounted tree is a single 100×100 `"v"` leaf with id `"root"` and the given colour. It has no hollow parent. |
| `Panes.Filter` | src/App.tsx:73-74 | The filter result is an order-preserving subsequence of its input. Each element that passes the test appears as often as in the input. Each element that fails it does not appear. |
| `Panes.FilterAll` | src/App.tsx:82-86 | A filter that every element passes returns its input. |
| `Removal.Spared` | src/App.tsx:74 | The first filter's test: a container passes unless its id is the target, and the root always passes. (A predicate. Its use is stated by `Remove`, `RemoveCons` and `RemoveSurvivors`.) |
| `Removal.Kept` | src/App.tsx:82-84 | The third filter's test: a container passes unless it is a non-root parent with no children. (A predicate. Its use is stated by `Remove`, `RemoveCons` and `RemoveSurvivors`.) |
| `Removal.Remove` | src/App.tsx:72-87 | No survivor of a deletion has the target id, unless it is the root, and no survivor is a hollow non-root parent. The rest of its behaviour is stated by `RemoveCons` through `RemoveAbsent`. |
| `Removal.PruneEach` | src/App.tsx:75-81 | The second pass keeps the length of the list and every field except the children. |
| `Removal.PruneEachAt` | src/App.tsx:76-79 | A container leaves the second pass with its child list run through the deletion. An empty child list stays empty. |
| `Removal.RemoveCons` | src/App.tsx:72-87 | The three passes act one container at a time. The head container survives, with its children pruned, exactly when its id is not the target (or it is the root) and the pruned container is not a hollow non-root parent. |
| `Removal.PruneEachCons` | src/App.tsx:75-81 | The second pass, unfolded along its first container. |
| `Removal.RemoveOrder` | src/App.tsx:73-86 | With subtrees cut off, the deletion's result at a level is an order-preserving subsequence of the input level. |
| `Removal.RemoveSurvivors` | src/App.tsx:74-86 | Every surviving container is spared by the first filter and passes the third. It is an input container whose children have been run through the deletion. |
| `Removal.RemoveComplete` | src/App.tsx:74-86 | Every input container that passes both filters survives, with its children pruned. This includes a parent left with exactly one child. |
| `Removal.RemoveErases` | src/App.tsx:73-79 | After deleting an id other than `"root"`, no container anywhere in the tree has that id. |
| `Removal.RemoveIds` | src/App.tsx:72-87 | Every id in the result was in the input. |
| `Removal.RemoveNoHollow` | src/App.tsx:82-86 | After a deletion, no container anywhere other than the root is a parent with an empty child list. |
| `Removal.RemoveKeepsRoot` | src/App.tsx:74-84 | A container with id `"root"` is never dropped from its level, even when it is the target or has no children. |
| `Removal.RemoveAbsent` | src/App.tsx:72-87 | If the id occurs nowhere and the tree has no hollow non-root parents, the deletion returns the tree unchanged. Every tree the editor can reach meets that condition: the initial tree does (`InitialTree`), and split, drag and delete keep it (`UpdateNoHollow`, `ResizeNoHollow`, `RemoveNoHollow`). |
| `Resizing.ResizePair` | src/App.tsx:107-134 | The matched container keeps all its own fields. Its children become exactly its first two, changed only in width and height. On the drag axis the first loses the delta and the second gains it. The other axis stays as it was. |
| `Resizing.Resize` | src/App.tsx:99-142 | The resize succeeds exactly when every matched container it reaches has at least two children (otherwise the source throws). On success the list keeps its length. |
| `Resizing.ResizeNode` | src/App.tsx:107-139 | One container through the resize. It fails exactly when it, or a container the resize reaches below it, is matched with fewer than two children. On success it keeps its own fields. A matched container gets its first two children resized as `Resized` describes. Any other container keeps the number of its children. |
| `Resizing.ResizeAt` | src/App.tsx:106-141 | The resize maps over the list: position i of a successful result is container i after the resize. |
| `Resizing.ResizeLevel` | src/App.tsx:106-141 | Every container at a level keeps its own fields. A matched one gets its first two children resized as `ResizePair` states. Any other one keeps the number of its children. |
| `Resizing.ResizeKeepsOthers` | src/App.tsx:135-139 | A container without the id, reached along a path without it, is at the same path after a successful resize. It keeps every field except its children and keeps the number of its children, at any depth. |
| `Resizing.ResizeNoHollow` | src/App.tsx:99-142 | A successful resize of a tree without hollow non-root parents leaves none. The resized children keep their ids, parent flags and subtrees. |
| `Resizing.ResizeAbsent` | src/App.tsx:135-139 | When the id occurs nowhere, the resize succeeds and returns the tree unchanged. |
| `Resizing.ResizeTarget` | src/App.tsx:107-133 | The first container with the id along a path ends up with its two children resized. Their sizes on the drag axis still add up to the old total. |
| `Resizing.ResizeAdditive` | src/App.tsx:99-142 | Two resizes with deltas d1 and d2 give the same result as one resize with d1 + d2. |
| `Resizing.ResizeNodeAdditive` | src/App.tsx:107-139 | The same additivity for one container. |
| `Session.EditingSession` | src/App.tsx:184-194 | Splitting the initial root leaf `"v"` gives a vertical root parent with two 100×100 leaves. Splitting its first leaf `"h"` gives a stacked parent that keeps the colour and has two new leaves. |
| `Session.DragSession` | src/App.tsx:107-133 | Dragging the root's divider after the first split by dw makes the left leaf 100 - dw wide and the right leaf 100 + dw wide. Both heights stay 100. |
| `Session.FirstDeletion` | src/App.tsx:72-87 | Deleting one pane of the stacked pair leaves its parent with the single other pane. The parent is not collapsed. |
| `Session.RemovePairLeavesOne` | src/App.tsx:73-86 | Deleting the first of a parent's two childless leaves leaves the second leaf as the only child. |
| `Session.SecondDeletion` | src/App.tsx:82-86 | Deleting the last pane of the pair also drops the parent, which is now hollow. |
| `Session.ThirdDeletion` | src/App.tsx:74-84 | Deleting the root's only child leaves the root as a parent without children. |

## Left out

- Random values: `getColor` and `getRandomId` (src/App.tsx:17-27) read `Math.random` and the clock. Their results are the `Fresh` record the caller supplies. Whether ids are unique is probabilistic and is not modelled.
- `Splitting.Update`: the source draws new ids and a new colour for every matching container. The model uses the same `Fresh` values for each match, which differs only if two containers share an id.
- The `parentId` field that the source writes into new leaves (src/App.tsx:48,58) is never read by the tree functions, so it is omitted.
- Sizes are unbounded integers, not JavaScript floating-point numbers. They start at 100 and change only by adding or subtracting a pointer delta. Fractional pointer coordinates and rounding are not modelled.
- The drag plumbing is left out: `onMouseDown`, the `mousemove`/`mouseup` listeners and `throttle` (src/App.tsx:144-180). The pointer deltas `initialX - clientX` and `initialY - clientY` become the `dw` and `dh` arguments of `Resize`.
- React state wiring is left out: `useState`, `useEffect`, `onUpdate`, `onRemove`, rendering (src/App.tsx:14-15,89-97,182-211). Only the initial tree (src/App.tsx:184-194) is kept, as `Panes.InitialTree`.
- The rendering walk src/Recursive.tsx is presentation only and is not part of this model.
- `Removal.Remove`: its own contract states only what every survivor satisfies. The rest of what it computes is stated by the lemmas about it (`RemoveCons`, `RemoveOrder`, `RemoveSurvivors`, `RemoveComplete`, `RemoveErases`, `RemoveIds`, `RemoveNoHollow`, `RemoveKeepsRoot`, `RemoveAbsent`), because proving it all inside the recursive definition is too costly for the verifier.
