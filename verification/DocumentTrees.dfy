/** The element tree in the order of its traversal (src/molly/documents/parsers/_xml_common.py:104-121):
    ancestors precede descendants because the traversal is a preorder. */
module DocumentTrees {
  import opened RunEvents
  import opened Sections
  import opened StructuralPaths

  function Joined(a: Tree, b: Tree): Tree { Tree(a.tags + b.tags, a.parents + b.parents) }

  /** `root.iter()`, elements only, numbered from `at`: each with its kind and its parent's number. */
  function Flatten(kind: string -> Tag, n: Node, parent: Option<nat>, at: nat): Tree
    decreases n
  {
    if n.Other? then Tree([], [])
    else Joined(Tree([kind(n.tag)], [parent]), FlattenAll(kind, n.children, Some(at), at + 1))
  }

  function FlattenAll(kind: string -> Tag, children: seq<Node>, parent: Option<nat>, at: nat): Tree
    decreases children
  {
    if children == [] then Tree([], [])
    else
      var before := FlattenAll(kind, children[..|children| - 1], parent, at);
      Joined(before, Flatten(kind, children[|children| - 1], parent, at + |before.tags|))
  }

  /** The document as `_make_sections` walks it. */
  function Document(kind: string -> Tag, root: Node): Tree { Flatten(kind, root, None, 0) }

  function Walk(n: nat): (order: seq<nat>)
    ensures |order| == n && forall i :: 0 <= i < n ==> order[i] == i
  { seq(n, i => i) }

  // ---- Parents come first

  predicate Forward(t: Tree, at: nat) {
    |t.tags| == |t.parents| && forall k :: 0 <= k < |t.parents| && t.parents[k].Some? ==> t.parents[k].value < at + k
  }

  lemma JoinedForward(a: Tree, b: Tree, at: nat)
    requires Forward(a, at) && Forward(b, at + |a.tags|)
    ensures Forward(Joined(a, b), at)
  {
    var t := Joined(a, b);
    forall k | 0 <= k < |t.parents| && t.parents[k].Some? ensures t.parents[k].value < at + k {
      if k >= |a.parents| { assert t.parents[k] == b.parents[k - |a.parents|]; }
    }
  }

  lemma {:induction false} FlattenForward(kind: string -> Tag, n: Node, parent: Option<nat>, at: nat)
    requires parent.Some? ==> parent.value < at
    ensures Forward(Flatten(kind, n, parent, at), at)
    decreases n
  {
    if n.Element? {
      FlattenAllForward(kind, n.children, Some(at), at + 1);
      JoinedForward(Tree([kind(n.tag)], [parent]), FlattenAll(kind, n.children, Some(at), at + 1), at);
    }
  }

  lemma {:induction false} FlattenAllForward(kind: string -> Tag, children: seq<Node>, parent: Option<nat>, at: nat)
    requires parent.Some? ==> parent.value < at
    ensures Forward(FlattenAll(kind, children, parent, at), at)
    decreases children
  {
    if children != [] {
      var (front, last) := (children[..|children| - 1], children[|children| - 1]);
      var before := FlattenAll(kind, front, parent, at);
      FlattenAllForward(kind, front, parent, at);
      FlattenForward(kind, last, parent, at + |before.tags|);
      JoinedForward(before, Flatten(kind, last, parent, at + |before.tags|), at);
    }
  }

  // ---- Every element has its place, and its parent is the parent

  /** How many elements the first `i` children hold. */
  function Before(kind: string -> Tag, children: seq<Node>, parent: Option<nat>, at: nat, i: nat): nat
    requires i <= |children|
  { |FlattenAll(kind, children[..i], parent, at).tags| }

  /** The number of an element: behind its parent and behind all that lies before it among the children. */
  function Position(kind: string -> Tag, n: Node, a: Address, at: nat): nat
    requires IsElementAt(n, a)
    decreases a
  {
    if a == [] then at
    else Position(kind, n.children[a[0]], a[1..], at + 1 + Before(kind, n.children, Some(at), at + 1, a[0]))
  }

  function TagAt(n: Node, a: Address): string
    requires IsElementAt(n, a)
    decreases a
  { if a == [] then n.tag else TagAt(n.children[a[0]], a[1..]) }

  predicate Rectangular(t: Tree) { |t.tags| == |t.parents| }

  /** The part of a tree from `from` on is `part`. */
  predicate Holds(t: Tree, from: nat, part: Tree) {
    && Rectangular(t) && Rectangular(part) && from + |part.tags| <= |t.tags|
    && forall k :: 0 <= k < |part.tags| ==> t.tags[from + k] == part.tags[k] && t.parents[from + k] == part.parents[k]
  }

  lemma HeldAt(t: Tree, from: nat, part: Tree, k: nat)
    requires Holds(t, from, part) && k < |part.tags|
    ensures from + k < |t.tags| == |t.parents| && k < |part.parents|
    ensures t.tags[from + k] == part.tags[k] && t.parents[from + k] == part.parents[k]
  {}

  lemma HoldsLeft(a: Tree, b: Tree, from: nat, part: Tree)
    requires Holds(a, from, part) && Rectangular(b)
    ensures Holds(Joined(a, b), from, part)
  {
    hide Flatten, FlattenAll;
  }

  lemma HoldsRight(a: Tree, b: Tree)
    requires Rectangular(a) && Rectangular(b)
    ensures Holds(Joined(a, b), |a.tags|, b)
  {}

  /** The last child's block stands behind those of the others. */
  lemma LastBlock(kind: string -> Tag, children: seq<Node>, parent: Option<nat>, at: nat)
    requires children != [] && (parent.Some? ==> parent.value < at)
    ensures var (before, i) := (FlattenAll(kind, Front(children), parent, at), |children| - 1);
            var last := Flatten(kind, children[i], parent, at + |before.tags|);
            && FlattenAll(kind, children, parent, at) == Joined(before, last)
            && Rectangular(before) && Rectangular(last) && Before(kind, children, parent, at, i) == |before.tags|
  {
    FlattenAllForward(kind, Front(children), parent, at);
    var before := FlattenAll(kind, Front(children), parent, at);
    FlattenForward(kind, Last(children), parent, at + |before.tags|);
  }

  lemma BeforeInFront(kind: string -> Tag, children: seq<Node>, parent: Option<nat>, at: nat, i: nat)
    requires i < |children|
    ensures Before(kind, children, parent, at, i) == Before(kind, Front(children), parent, at, i)
  {
    hide FlattenAll;
    assert Front(children)[..i] == children[..i];
  }

  lemma {:induction false} ChildBlock(kind: string -> Tag, children: seq<Node>, parent: Option<nat>, at: nat, i: nat)
    requires i < |children| && (parent.Some? ==> parent.value < at)
    ensures var from := Before(kind, children, parent, at, i);
            Holds(FlattenAll(kind, children, parent, at), from, Flatten(kind, children[i], parent, at + from))
    decreases children
  {
    hide Flatten, FlattenAll, Before, Holds, Joined, Rectangular;
    LastBlock(kind, children, parent, at);
    var before := FlattenAll(kind, Front(children), parent, at);
    var last := Flatten(kind, Last(children), parent, at + |before.tags|);
    if i < |children| - 1 {
      ChildBlock(kind, Front(children), parent, at, i);
      BeforeInFront(kind, children, parent, at, i);
      var from := Before(kind, children, parent, at, i);
      HoldsLeft(before, last, from, Flatten(kind, children[i], parent, at + from));
    } else {
      HoldsRight(before, last);
    }
  }

  /** The child's part of its parent's tree stands behind the parent and the earlier children. */
  lemma ChildHeld(kind: string -> Tag, n: Node, parent: Option<nat>, at: nat, i: nat)
    requires n.Element? && i < |n.children| && (parent.Some? ==> parent.value < at)
    ensures var from := Before(kind, n.children, Some(at), at + 1, i);
            Holds(Flatten(kind, n, parent, at), 1 + from, Flatten(kind, n.children[i], Some(at), at + 1 + from))
  {
    ChildBlock(kind, n.children, Some(at), at + 1, i);
    var all := FlattenAll(kind, n.children, Some(at), at + 1);
    var from := Before(kind, n.children, Some(at), at + 1, i);
    assert Flatten(kind, n, parent, at) == Joined(Tree([kind(n.tag)], [parent]), all);
    hide Flatten, FlattenAll, Before;
    HoldsBehindOne(Tree([kind(n.tag)], [parent]), all, from, Flatten(kind, n.children[i], Some(at), at + 1 + from));
  }

  lemma HoldsBehindOne(root: Tree, all: Tree, from: nat, part: Tree)
    requires |root.tags| == |root.parents| == 1 && Holds(all, from, part)
    ensures Holds(Joined(root, all), 1 + from, part)
  {
    var t := Joined(root, all);
    forall k | 0 <= k < |part.tags| ensures t.tags[1 + from + k] == part.tags[k]
        && t.parents[1 + from + k] == part.parents[k] {
      assert t.tags[1 + from + k] == all.tags[from + k] && t.parents[1 + from + k] == all.parents[from + k];
    }
  }

  lemma Head(n: Node, a: Address)
    requires IsElementAt(n, a)
    ensures n.Element?
    ensures a != [] ==> a[0] < |n.children| && n.children[a[0]].Element? && IsElementAt(n.children[a[0]], a[1..])
  {}

  lemma StepDown(kind: string -> Tag, n: Node, b: Address, at: nat)
    requires n.Element? && b != [] && b[0] < |n.children| && n.children[b[0]].Element?
               && IsElementAt(n.children[b[0]], b[1..])
    ensures IsElementAt(n, b)
    ensures Position(kind, n, b, at) ==
              Position(kind, n.children[b[0]], b[1..], at + 1 + Before(kind, n.children, Some(at), at + 1, b[0]))
    ensures TagAt(n, b) == TagAt(n.children[b[0]], b[1..])
  {
    hide Before;
  }

  lemma AtRoot(kind: string -> Tag, n: Node, at: nat)
    requires n.Element?
    ensures IsElementAt(n, []) && Position(kind, n, [], at) == at
  {}

  lemma ParentAddress(kind: string -> Tag, n: Node, a: Address, at: nat)
    requires IsElementAt(n, a) && |a| > 1 && IsElementAt(n.children[a[0]], a[1..][..|a| - 2])
    ensures IsElementAt(n, a[..|a| - 1])
    ensures Position(kind, n, a[..|a| - 1], at) ==
              Position(kind, n.children[a[0]], a[1..][..|a| - 2],
                  at + 1 + Before(kind, n.children, Some(at), at + 1, a[0]))
  {
    hide Position, IsElementAt, Before;
    Head(n, a);
    var b := a[..|a| - 1];
    StepDown(kind, n, b, at) by { assert b[1..] == a[1..][..|a| - 2]; }
    assert a[..|a| - 1][1..] == a[1..][..|a| - 2];
  }

  /** The number of the parent: that of the element above, or what stands above the whole tree. */
  function Above(kind: string -> Tag, n: Node, parent: Option<nat>, at: nat, a: Address): Option<nat>
    requires IsElementAt(n, a)
  {
    if a == [] then parent
    else if IsElementAt(n, a[..|a| - 1]) then Some(Position(kind, n, a[..|a| - 1], at))
    else None
  }

  lemma AboveStep(kind: string -> Tag, n: Node, parent: Option<nat>, at: nat, a: Address)
    requires IsElementAt(n, a) && a != []
    requires n.Element? && a[0] < |n.children| && IsElementAt(n.children[a[0]], a[1..])
    requires a[1..] != [] ==> IsElementAt(n.children[a[0]], a[1..][..|a[1..]| - 1])
    ensures IsElementAt(n, a[..|a| - 1])
    ensures Above(kind, n, parent, at, a) ==
              Above(kind, n.children[a[0]], Some(at), at + 1 + Before(kind, n.children, Some(at), at + 1, a[0]), a[1..])
  {
    hide IsElementAt, Before, Position;
    Head(n, a);
    if |a| > 1 {
      assert a[1..][..|a[1..]| - 1] == a[1..][..|a| - 2];
      ParentAddress(kind, n, a, at);
    } else {
      assert a[..|a| - 1] == [] && a[1..] == [];
      AtRoot(kind, n, at);
    }
  }

  ghost predicate IsPlaced(kind: string -> Tag, n: Node, parent: Option<nat>, at: nat, a: Address)
    requires IsElementAt(n, a)
  {
    var (t, p) := (Flatten(kind, n, parent, at), Position(kind, n, a, at));
    && at <= p < at + |t.tags| && p - at < |t.parents| && t.tags[p - at] == kind(TagAt(n, a))
    && t.parents[p - at] == Above(kind, n, parent, at, a) && (a != [] ==> IsElementAt(n, a[..|a| - 1]))
  }

  lemma PlacedStep(kind: string -> Tag, n: Node, parent: Option<nat>, at: nat, a: Address)
    requires IsElementAt(n, a) && a != [] && (parent.Some? ==> parent.value < at)
    requires n.Element? && a[0] < |n.children| && n.children[a[0]].Element? && IsElementAt(n.children[a[0]], a[1..])
    requires IsPlaced(kind, n.children[a[0]], Some(at), at + 1 + Before(kind, n.children, Some(at), at + 1, a[0]),
               a[1..])
    ensures IsPlaced(kind, n, parent, at, a)
  {
    hide IsElementAt, Before, Position, TagAt, Flatten, FlattenAll, Holds, Above;
    var (c, from) := (n.children[a[0]], Before(kind, n.children, Some(at), at + 1, a[0]));
    ChildHeld(kind, n, parent, at, a[0]);
    var p := Position(kind, c, a[1..], at + 1 + from);
    HeldAt(Flatten(kind, n, parent, at), 1 + from, Flatten(kind, c, Some(at), at + 1 + from), p - (at + 1 + from));
    StepDown(kind, n, a, at);
    AboveStep(kind, n, parent, at, a);
  }

  /** An element's number carries its kind, and its parent is the number of the element above it. */
  lemma {:induction false} Placed(kind: string -> Tag, n: Node, parent: Option<nat>, at: nat, a: Address)
    requires IsElementAt(n, a) && (parent.Some? ==> parent.value < at)
    ensures IsPlaced(kind, n, parent, at, a)
    decreases a
  {
    if a == [] { return; }
    hide IsPlaced, Before;
    Head(n, a);
    Placed(kind, n.children[a[0]], Some(at), at + 1 + Before(kind, n.children, Some(at), at + 1, a[0]), a[1..]);
    PlacedStep(kind, n, parent, at, a);
  }

  // ---- Every element has its own number, in document order, and no number is left over

  /** Document order: an element before what it contains, and what an earlier sibling contains before a later one. */
  predicate Precedes(a: Address, b: Address) {
    b != [] && (a == [] || a[0] < b[0] || (a[0] == b[0] && Precedes(a[1..], b[1..])))
  }

  lemma {:induction false} PrecedesTotal(a: Address, b: Address)
    ensures Precedes(a, b) || Precedes(b, a) || a == b
    ensures !(Precedes(a, b) && Precedes(b, a)) && (a == b ==> !Precedes(a, b))
  {
    if a != [] && b != [] {
      PrecedesTotal(a[1..], b[1..]);
      if a[0] == b[0] && a[1..] == b[1..] { assert a == [a[0]] + a[1..] == b; }
    }
  }

  lemma BeforeNext(kind: string -> Tag, children: seq<Node>, parent: Option<nat>, at: nat, i: nat)
    requires i < |children|
    ensures var from := Before(kind, children, parent, at, i);
            Before(kind, children, parent, at, i + 1) == from + |Flatten(kind, children[i], parent, at + from).tags|
  {
    var upTo := children[..i + 1];
    assert upTo[..|upTo| - 1] == children[..i] && upTo[|upTo| - 1] == children[i];
    hide Flatten;
  }

  lemma {:induction false} BeforeGrows(kind: string -> Tag, children: seq<Node>, parent: Option<nat>, at: nat, i: nat,
                                       j: nat)
    requires i <= j <= |children|
    ensures Before(kind, children, parent, at, i) <= Before(kind, children, parent, at, j)
    decreases j
  {
    hide Before, Flatten;
    if i < j {
      BeforeGrows(kind, children, parent, at, i, j - 1);
      BeforeNext(kind, children, parent, at, j - 1);
    }
  }

  lemma PlacedRange(kind: string -> Tag, n: Node, parent: Option<nat>, at: nat, a: Address)
    requires IsElementAt(n, a) && (parent.Some? ==> parent.value < at)
    ensures at <= Position(kind, n, a, at) < at + |Flatten(kind, n, parent, at).tags|
  {
    Placed(kind, n, parent, at, a);
    hide Flatten, Position, IsElementAt, TagAt, Above;
  }

  /** The numbers of all that lies in one child. */
  lemma ChildRange(kind: string -> Tag, n: Node, a: Address, at: nat)
    requires IsElementAt(n, a) && a != [] && n.Element? && a[0] < |n.children|
    ensures at + 1 + Before(kind, n.children, Some(at), at + 1, a[0]) <= Position(kind, n, a, at)
    ensures Position(kind, n, a, at) < at + 1 + Before(kind, n.children, Some(at), at + 1, a[0] + 1)
  {
    hide Before, Position, IsElementAt, TagAt, Flatten;
    Head(n, a);
    PlacedRange(kind, n.children[a[0]], Some(at), at + 1 + Before(kind, n.children, Some(at), at + 1, a[0]), a[1..]);
    BeforeNext(kind, n.children, Some(at), at + 1, a[0]);
    StepDown(kind, n, a, at);
  }

  lemma {:induction false} NumbersInOrder(kind: string -> Tag, n: Node, a: Address, b: Address, at: nat)
    requires IsElementAt(n, a) && IsElementAt(n, b) && Precedes(a, b)
    ensures Position(kind, n, a, at) < Position(kind, n, b, at)
    decreases a
  {
    hide IsElementAt, Before, Position;
    Head(n, a);
    Head(n, b);
    ChildRange(kind, n, b, at);
    if a == [] {
      AtRoot(kind, n, at);
    } else {
      ChildRange(kind, n, a, at);
      if a[0] < b[0] {
        BeforeGrows(kind, n.children, Some(at), at + 1, a[0] + 1, b[0]);
      } else {
        StepDown(kind, n, a, at);
        StepDown(kind, n, b, at);
        NumbersInOrder(kind, n.children[a[0]], a[1..], b[1..],
                       at + 1 + Before(kind, n.children, Some(at), at + 1, a[0]));
      }
    }
  }

  /** The child whose block holds offset `p`. */
  lemma {:induction false} BlockOf(kind: string -> Tag, children: seq<Node>, parent: Option<nat>, at: nat, p: nat,
                                   upTo: nat)
    returns (i: nat)
    requires 0 < upTo <= |children| && p < Before(kind, children, parent, at, upTo)
    ensures i < |children| && Before(kind, children, parent, at, i) <= p < Before(kind, children, parent, at, i + 1)
    decreases upTo
  {
    assert Before(kind, children, parent, at, 0) == 0;
    hide Before;
    if upTo > 1 && p < Before(kind, children, parent, at, upTo - 1) {
      i := BlockOf(kind, children, parent, at, p, upTo - 1);
    } else {
      i := upTo - 1;
    }
  }

  lemma {:induction false} NumberReached(kind: string -> Tag, n: Node, parent: Option<nat>, at: nat, p: nat)
    returns (a: Address)
    requires at <= p < at + |Flatten(kind, n, parent, at).tags|
    ensures IsElementAt(n, a) && Position(kind, n, a, at) == p
    decreases n
  {
    if p == at { AtRoot(kind, n, at); return []; }
    var offset := p - at - 1;
    assert n.children[..|n.children|] == n.children;
    assert offset < Before(kind, n.children, Some(at), at + 1, |n.children|);
    hide IsElementAt, Before, Position, FlattenAll;
    var i := BlockOf(kind, n.children, Some(at), at + 1, offset, |n.children|);
    var from := Before(kind, n.children, Some(at), at + 1, i);
    BeforeNext(kind, n.children, Some(at), at + 1, i);
    var b := NumberReached(kind, n.children[i], Some(at), at + 1 + from, p);
    Head(n.children[i], b);
    a := [i] + b;
    assert a[0] == i && a[1..] == b;
    StepDown(kind, n, a, at);
  }

  ghost predicate IsNumber(kind: string -> Tag, root: Node, p: nat) {
    exists a: Address :: IsElementAt(root, a) && Position(kind, root, a, 0) == p
  }

  /** The numbering is a bijection that follows document order: of two elements the earlier one has the smaller
      number, and every number is that of an element. */
  lemma NumbersAreDocumentOrder(kind: string -> Tag, root: Node)
    ensures forall a: Address, b: Address :: IsElementAt(root, a) && IsElementAt(root, b) ==>
              && (Position(kind, root, a, 0) < Position(kind, root, b, 0) <==> Precedes(a, b))
              && (Position(kind, root, a, 0) == Position(kind, root, b, 0) <==> a == b)
    ensures forall p: nat :: IsNumber(kind, root, p) <==> p < |Document(kind, root).tags|
  {
    hide IsElementAt, Position, Precedes, Flatten;
    forall a: Address, b: Address | IsElementAt(root, a) && IsElementAt(root, b)
      ensures Position(kind, root, a, 0) < Position(kind, root, b, 0) <==> Precedes(a, b)
      ensures Position(kind, root, a, 0) == Position(kind, root, b, 0) <==> a == b
    {
      PrecedesTotal(a, b);
      if Precedes(a, b) { NumbersInOrder(kind, root, a, b, 0); }
      if Precedes(b, a) { NumbersInOrder(kind, root, b, a, 0); }
    }
    forall p: nat ensures IsNumber(kind, root, p) <==> p < |Document(kind, root).tags| {
      if p < |Document(kind, root).tags| { var a := NumberReached(kind, root, None, 0, p); }
      if a: Address :| IsElementAt(root, a) && Position(kind, root, a, 0) == p { PlacedRange(kind, root, None, 0, a); }
    }
  }

  lemma ParentNumbered(kind: string -> Tag, root: Node, a: Address)
    requires IsElementAt(root, a) && a != []
    ensures IsElementAt(root, a[..|a| - 1])
    ensures Position(kind, root, a[..|a| - 1], 0) < Position(kind, root, a, 0) < |Document(kind, root).tags|
  {
    Placed(kind, root, None, 0, a);
    FlattenForward(kind, root, None, 0);
    hide Flatten, Position, IsElementAt, TagAt;
    assert Document(kind, root).parents[Position(kind, root, a, 0)].Some?;
  }

  /** The walk over a document is in document order: it is a walk over all elements, and every element is numbered
      behind its parent. */
  lemma PreorderIsDocumentOrder(kind: string -> Tag, root: Node)
    ensures var t := Document(kind, root); t.Valid() && DocumentOrder(t, Walk(|t.tags|))
    ensures forall a: Address :: IsElementAt(root, a) && a != [] ==>
              && IsElementAt(root, a[..|a| - 1])
              && Position(kind, root, a[..|a| - 1], 0) < Position(kind, root, a, 0) < |Document(kind, root).tags|
  {
    hide Flatten, Position, IsElementAt;
    FlattenForward(kind, root, None, 0);
    var t := Document(kind, root);
    forall i: nat | i < |t.tags| ensures i in Walk(|t.tags|) { assert Walk(|t.tags|)[i] == i; }
    forall a: Address | IsElementAt(root, a) && a != []
      ensures IsElementAt(root, a[..|a| - 1])
      ensures Position(kind, root, a[..|a| - 1], 0) < Position(kind, root, a, 0) < |t.tags|
    {
      ParentNumbered(kind, root, a);
    }
  }

  /** So on any document the guard of `_make_sections` is dead: the only failure is the level limit, and otherwise the
      sections nest. */
  lemma DocumentSections(kind: string -> Tag, root: Node)
    ensures var t := Document(kind, root);
            t.Valid() && InTree(t, Walk(|t.tags|)) &&
            var r := SectionsOf(t, SectionElements(t, Walk(|t.tags|)));
            (r.Err? ==> r.error == TooDeep) && (r.Ok? ==> Nested(r.value) && Distinct(Sections.Ids(r.value)))
  {
    hide Flatten, SectionsOf, SectionElements, Nested;
    PreorderIsDocumentOrder(kind, root);
    var t := Document(kind, root);
    SectionsNest(t, Walk(|t.tags|));
  }
}
