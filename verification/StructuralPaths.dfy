/** Sibling-indexed paths of an element tree (src/molly/documents/parsers/_common.py:71-73, 117-138)
    and the object ids derived from them (src/molly/documents/canonical.py:100-127). */
module StructuralPaths {
  import opened Decimals
  import opened RunEvents

  /** An element with its children in order; comments and processing instructions have no string tag. */
  datatype Node = Element(tag: string, children: seq<Node>) | Other

  /** The child positions that lead from the root to an element. */
  type Address = seq<nat>

  predicate IsElementAt(n: Node, a: Address) {
    n.Element? && (a == [] || (a[0] < |n.children| && n.children[a[0]].Element?
        && IsElementAt(n.children[a[0]], a[1..])))
  }

  datatype Segment = Segment(name: string, index: nat)

  /** How many of these children are elements with this local name. */
  function Named(local: string -> string, children: seq<Node>, name: string): nat {
    if children == [] then 0
    else Named(local, Front(children), name) + (if Last(children).Element? && local(Last(children).tag) == name then 1
        else 0)
  }

  /** The segment of child `i`: its local name, and its number among the siblings of that name. */
  function ChildSegment(local: string -> string, children: seq<Node>, i: nat): Segment
    requires i < |children| && children[i].Element?
  {
    var name := local(children[i].tag);
    Segment(name, Named(local, children[..i + 1], name))
  }

  /** The segments below `n` that lead to an address. */
  function Segments(local: string -> string, n: Node, a: Address): seq<Segment>
    requires IsElementAt(n, a)
    decreases a
  {
    if a == [] then [] else [ChildSegment(local, n.children, a[0])] + Segments(local, n.children[a[0]], a[1..])
  }

  function RootName(local: string -> string, root: Node): string
    requires root.Element?
  { if local(root.tag) == "" then "document" else local(root.tag) }

  // ---- Text

  function Text(s: Segment): string { s.name + "[" + Decimal(s.index) + "]" }

  function Render(segments: seq<Segment>): string {
    if segments == [] then "" else Render(Front(segments)) + "/" + Text(Last(segments))
  }

  /** The path of the element at an address. */
  function PathOf(local: string -> string, root: Node, a: Address): string
    requires IsElementAt(root, a)
  { Render([Segment(RootName(local, root), 1)] + Segments(local, root, a)) }

  function Depth(n: Node): nat {
    if n.Other? then 0 else 1 + DeepestChild(n.children)
  }

  function DeepestChild(children: seq<Node>): nat {
    if children == [] then 0
    else
      var (d, e) := (DeepestChild(children[..|children| - 1]), Depth(children[|children| - 1]));
      if d >= e then d else e
  }

  // ---- The recursive visit of the source

  /** The part of the result that a visit of `n` at address `here` adds. */
  ghost predicate Adds(local: string -> string, n: Node, path: string, here: Address, before: map<Address, string>,
                       after: map<Address, string>) {
    forall a: Address ::
      if IsBelow(here, a) && IsElementAt(n, a[|here|..])
      then a in after && after[a] == path + Render(Segments(local, n, a[|here|..]))
      else (a in after <==> a in before) && (a in before ==> after[a] == before[a])
  }

  predicate IsBelow(here: Address, a: Address) { here <= a }

  function SiblingIndex(indices: map<string, nat>, name: string): nat { if name in indices then indices[name] else 0 }

  /** What has been added after `i` children of `n`. */
  ghost predicate AddsChildren(local: string -> string, n: Node, path: string, here: Address, i: nat,
                               before: map<Address, string>, after: map<Address, string>)
    requires n.Element?
  {
    forall a: Address ::
      if IsBelow(here, a) && IsElementAt(n, a[|here|..]) && (|a| == |here| || a[|here|] < i)
      then a in after && after[a] == path + Render(Segments(local, n, a[|here|..]))
      else (a in after <==> a in before) && (a in before ==> after[a] == before[a])
  }

  method Visit(local: string -> string, n: Node, path: string, depth: nat, maxDepth: nat, here: Address,
               result: map<Address, string>)
    returns (ok: bool, after: map<Address, string>)
    requires n.Element?
    ensures ok <==> depth + Depth(n) - 1 <= maxDepth
    ensures ok ==> Adds(local, n, path, here, result, after)
    decreases n
  {
    hide Render, Segments, IsElementAt, Text, Adds, AddsChildren, Named, DeepestChild, Depth;
    NothingNamed(local);
    after := result;
    DepthOf(n);
    if depth > maxDepth { return false, after; }
    after := after[here := path];
    var indices: map<string, nat> := map[];
    var i := 0;
    FirstAdded(local, n, path, here, result);
    while i < |n.children|
      invariant 0 <= i <= |n.children|
      invariant depth + DeepestChild(n.children[..i]) <= maxDepth
      invariant forall name :: SiblingIndex(indices, name) == Named(local, n.children[..i], name)
      invariant AddsChildren(local, n, path, here, i, result, after)
    {
      var child := n.children[i];
      DeepestNext(n.children, i);
      NamedNext(local, n.children, i);
      if child.Element? {
        var name := local(child.tag);
        ghost var counted := indices;
        indices := indices[name := SiblingIndex(indices, name) + 1];
        forall x ensures SiblingIndex(indices, x) == Named(local, n.children[..i + 1], x) {
          assert SiblingIndex(counted, x) == Named(local, n.children[..i], x);
        }
        assert Segment(name, indices[name]) == ChildSegment(local, n.children, i);
        var text := Text(Segment(name, indices[name]));
        ghost var before := after;
        ok, after := Visit(local, child, path + "/" + text, depth + 1, maxDepth, here + [i], after);
        if !ok { return false, after; }
        ChildAdded(local, n, path, here, i, result, before, after);
      } else {
        OtherAdded(local, n, path, here, i, result, after);
        forall x ensures SiblingIndex(indices, x) == Named(local, n.children[..i + 1], x) {
          assert SiblingIndex(indices, x) == Named(local, n.children[..i], x);
        }
      }
      i := i + 1;
    }
    assert n.children[..i] == n.children;
    AllAdded(local, n, path, here, result, after);
    ok := true;
  }

  lemma DepthOf(n: Node)
    requires n.Element?
    ensures Depth(n) == 1 + DeepestChild(n.children)
  {}

  lemma AllAdded(local: string -> string, n: Node, path: string, here: Address, before: map<Address, string>,
                 after: map<Address, string>)
    requires n.Element? && AddsChildren(local, n, path, here, |n.children|, before, after)
    ensures Adds(local, n, path, here, before, after)
  {
    hide Render, Segments;
    forall a: Address | IsBelow(here, a) && IsElementAt(n, a[|here|..])
        && |a| > |here| ensures a[|here|] < |n.children| {
      assert a[|here|..][0] == a[|here|];
    }
  }

  lemma {:induction false} DeepestPrefix(children: seq<Node>, n: nat)
    requires n <= |children|
    ensures DeepestChild(children[..n]) <= DeepestChild(children)
    ensures n > 0 ==>
              && DeepestChild(children[..n]) >= Depth(children[n - 1])
              && DeepestChild(children[..n]) >= DeepestChild(children[..n - 1])
  {
    if n < |children| {
      DeepestPrefix(children[..|children| - 1], n);
      assert children[..|children| - 1][..n] == children[..n];
      if n > 0 { assert children[..|children| - 1][..n - 1] == children[..n - 1]; }
    } else {
      assert children[..n] == children;
    }
  }

  lemma DeepestNext(children: seq<Node>, i: nat)
    requires i < |children|
    ensures DeepestChild(children[..i + 1]) ==
              if DeepestChild(children[..i]) >= Depth(children[i]) then DeepestChild(children[..i])
              else Depth(children[i])
    ensures DeepestChild(children[..i + 1]) <= DeepestChild(children)
    ensures children[i].Other? ==> Depth(children[i]) == 0
  {
    TakeNext(children, i);
    DeepestPrefix(children, i + 1);
  }

  lemma NamedNext(local: string -> string, children: seq<Node>, i: nat)
    requires i < |children|
    ensures forall name :: Named(local, children[..i + 1], name) ==
                             Named(local, children[..i], name) + (if children[i].Element?
                                 && local(children[i].tag) == name then 1 else 0)
  {
    TakeNext(children, i);
  }

  lemma NothingNamed(local: string -> string)
    ensures DeepestChild([]) == 0 && forall name :: Named(local, [], name) == 0
  {}

  lemma FirstAdded(local: string -> string, n: Node, path: string, here: Address, result: map<Address, string>)
    requires n.Element?
    ensures AddsChildren(local, n, path, here, 0, result, result[here := path])
  {
    forall a: Address | IsBelow(here, a) && |a| == |here| ensures a == here && a[|here|..] == [] {}
    assert path + Render([]) == path;
  }

  lemma OtherAdded(local: string -> string, n: Node, path: string, here: Address, i: nat, before: map<Address, string>,
                   after: map<Address, string>)
    requires n.Element? && i < |n.children| && n.children[i].Other?
               && AddsChildren(local, n, path, here, i, before, after)
    ensures AddsChildren(local, n, path, here, i + 1, before, after)
  {
    forall a: Address | IsBelow(here, a) && |a| > |here| && a[|here|] == i ensures !IsElementAt(n, a[|here|..]) {
      assert a[|here|..][0] == i;
    }
  }

  lemma {:induction false} RenderHead(s: Segment, rest: seq<Segment>)
    ensures Render([s] + rest) == "/" + Text(s) + Render(rest)
    decreases |rest|
  {
    var all := [s] + rest;
    if rest == [] {
      assert Front(all) == [] && Last(all) == s;
    } else {
      RenderHead(s, Front(rest));
      assert Front(all) == [s] + Front(rest) && Last(all) == Last(rest);
    }
  }

  /** The addresses below child `i`, seen from the parent. */
  lemma ChildAddress(local: string -> string, n: Node, path: string, here: Address, i: nat, a: Address)
    requires n.Element? && i < |n.children| && IsBelow(here + [i], a)
    ensures IsBelow(here, a) && |a| > |here| && a[|here|] == i
    ensures IsElementAt(n, a[|here|..]) <==> IsElementAt(n.children[i], a[|here| + 1..])
    ensures IsElementAt(n, a[|here|..]) ==>
              n.children[i].Element? &&
              path + Render(Segments(local, n, a[|here|..]))
              == path + "/" + Text(ChildSegment(local, n.children, i)) + Render(Segments(local, n.children[i],
                  a[|here| + 1..]))
  {
    var below := a[|here|..];
    assert (here + [i])[|here|] == i && a[|here|] == i;
    assert here == (here + [i])[..|here|] == a[..|here|];
    assert below[0] == i && below[1..] == a[|here| + 1..];
    if IsElementAt(n, below) {
      RenderHead(ChildSegment(local, n.children, i), Segments(local, n.children[i], a[|here| + 1..]));
    }
  }

  lemma BelowChild(here: Address, i: nat, a: Address)
    ensures IsBelow(here + [i], a) <==> IsBelow(here, a) && |a| > |here| && a[|here|] == i
  {
    if IsBelow(here, a) && |a| > |here| {
      assert a == a[..|here|] + [a[|here|]] + a[|here| + 1..];
    }
    if IsBelow(here + [i], a) {
      assert here == (here + [i])[..|here|] == a[..|here|];
      assert (here + [i])[|here|] == i;
    }
  }

  lemma ChildAdded(local: string -> string, n: Node, path: string, here: Address, i: nat,
                   first: map<Address, string>, before: map<Address, string>, after: map<Address, string>)
    requires n.Element? && i < |n.children| && n.children[i].Element?
               && AddsChildren(local, n, path, here, i, first, before)
    requires Adds(local, n.children[i], path + "/" + Text(ChildSegment(local, n.children, i)), here + [i], before,
               after)
    ensures AddsChildren(local, n, path, here, i + 1, first, after)
  {
    hide Render, Segments, IsElementAt, Text, ChildSegment;
    forall a: Address
      ensures if IsBelow(here, a) && IsElementAt(n, a[|here|..]) && (|a| == |here| || a[|here|] < i + 1)
              then a in after && after[a] == path + Render(Segments(local, n, a[|here|..]))
              else (a in after <==> a in first) && (a in first ==> after[a] == first[a])
    {
      assert |here + [i]| == |here| + 1;
      BelowChild(here, i, a);
      if IsBelow(here + [i], a) { ChildAddress(local, n, path, here, i, a); }
    }
  }

  /** `structural_paths`: every element gets its path, unless the tree is too deep. */
  method Paths(local: string -> string, root: Node, maxDepth: nat) returns (r: Option<map<Address, string>>)
    requires root.Element?
    ensures r.Some? <==> Depth(root) <= maxDepth
    ensures r.Some? ==> forall a: Address :: a in r.value <==> IsElementAt(root, a)
    ensures r.Some? ==> forall a: Address :: a in r.value ==> r.value[a] == PathOf(local, root, a)
  {
    var top := Segment(RootName(local, root), 1);
    assert Decimal(1) == "1";
    var ok, paths := Visit(local, root, "/" + RootName(local, root) + "[1]", 1, maxDepth, [], map[]);
    if !ok { return None; }
    forall a: Address ensures a in paths <==> IsElementAt(root, a)
      ensures a in paths ==> paths[a] == PathOf(local, root, a)
    {
      assert IsBelow([], a) && a[0..] == a;
      if IsElementAt(root, a) {
        RenderHead(top, Segments(local, root, a));
        assert "/" + RootName(local, root) + "[1]" == "/" + Text(top);
      }
    }
    r := Some(paths);
  }

  // ---- Different elements have different paths

  lemma {:induction false} NamedPrefix(local: string -> string, children: seq<Node>, i: nat, j: nat)
    requires i < j < |children| && children[j].Element?
    ensures Named(local, children[..i + 1], local(children[j].tag)) < Named(local, children[..j + 1],
              local(children[j].tag))
    decreases j
  {
    TakeNext(children, j);
    if i < j - 1 { NamedGrows(local, children, i, j - 1, local(children[j].tag)); }
  }

  lemma {:induction false} NamedGrows(local: string -> string, children: seq<Node>, i: nat, j: nat, name: string)
    requires i <= j < |children|
    ensures Named(local, children[..i + 1], name) <= Named(local, children[..j + 1], name)
    decreases j
  {
    if i < j {
      TakeNext(children, j);
      NamedGrows(local, children, i, j - 1, name);
    }
  }

  /** Siblings have different segments, even when their tags agree only after folding and stripping. */
  lemma SiblingsDiffer(local: string -> string, children: seq<Node>, i: nat, j: nat)
    requires i < j < |children| && children[i].Element? && children[j].Element?
    ensures ChildSegment(local, children, i) != ChildSegment(local, children, j)
  {
    NamedPrefix(local, children, i, j);
  }

  lemma {:induction false} SegmentsDiffer(local: string -> string, n: Node, a: Address, b: Address)
    requires IsElementAt(n, a) && IsElementAt(n, b) && a != b
    ensures Segments(local, n, a) != Segments(local, n, b)
    decreases |a|
  {
    if a == [] || b == [] { return; }
    var (s, t) := (Segments(local, n, a), Segments(local, n, b));
    if a[0] == b[0] {
      assert a == [a[0]] + a[1..] && b == [b[0]] + b[1..];
      SegmentsDiffer(local, n.children[a[0]], a[1..], b[1..]);
      assert s[1..] == Segments(local, n.children[a[0]], a[1..]) && t[1..] == Segments(local, n.children[a[0]], b[1..]);
    } else {
      if a[0] < b[0] { SiblingsDiffer(local, n.children, a[0], b[0]); } else {
        SiblingsDiffer(local, n.children, b[0], a[0]);
      }
      assert s[0] != t[0];
    }
  }

  /** No '/' in a string: true of every XML name. */
  predicate SlashFree(s: string) { '/' !in s }

  lemma TextSlashFree(s: Segment)
    requires SlashFree(s.name)
    ensures SlashFree(Text(s))
  {
    DecimalForm(s.index);
  }

  /** The bracket before the index is the last one. */
  lemma LastBracket(s: Segment)
    ensures |s.name| < |Text(s)| && Text(s)[|s.name|] == '[' && forall k :: |s.name| < k < |Text(s)| ==>
              Text(s)[k] != '['
  {
    var d := Decimal(s.index);
    DecimalForm(s.index);
    forall k | |s.name| < k < |Text(s)| - 1 ensures Text(s)[k] == d[k - |s.name| - 1] {}
  }

  lemma TextInjective(s: Segment, t: Segment)
    requires Text(s) == Text(t)
    ensures s == t
  {
    DecimalForm(s.index);
    DecimalForm(t.index);
    var (x, c, d) := (Text(s), Decimal(s.index), Decimal(t.index));
    LastBracket(s);
    LastBracket(t);
    assert s.name == x[..|s.name|] == t.name;
    assert c == x[|s.name| + 1..|x| - 1] == d;
  }

  lemma SlashIsLast(p: string, u: string)
    requires SlashFree(u)
    ensures var x := p + "/" + u; x[|p|] == '/' && forall k :: |p| < k < |x| ==> x[k] != '/'
  {
    var x := p + "/" + u;
    forall k | |p| < k < |x| ensures x[k] == u[k - |p| - 1] {}
  }

  lemma LastSlash(p: string, u: string, q: string, v: string)
    requires SlashFree(u) && SlashFree(v) && p + "/" + u == q + "/" + v
    ensures p == q && u == v
  {
    var x := p + "/" + u;
    SlashIsLast(p, u);
    SlashIsLast(q, v);
    assert p == x[..|p|] && q == x[..|q|] && u == x[|p| + 1..] && v == x[|q| + 1..];
  }

  predicate NamesSlashFree(s: seq<Segment>) { forall i :: 0 <= i < |s| ==> SlashFree(s[i].name) }

  lemma {:induction false} RenderInjective(s: seq<Segment>, t: seq<Segment>)
    requires NamesSlashFree(s) && NamesSlashFree(t) && Render(s) == Render(t)
    ensures s == t
  {
    if s != [] && t != [] {
      TextSlashFree(Last(s));
      TextSlashFree(Last(t));
      LastSlash(Render(Front(s)), Text(Last(s)), Render(Front(t)), Text(Last(t)));
      RenderInjective(Front(s), Front(t));
      TextInjective(Last(s), Last(t));
      assert s == Front(s) + [Last(s)] && t == Front(t) + [Last(t)];
    }
  }

  /** Local names as XML allows them. */
  ghost predicate XmlNames(local: string -> string) { forall tag :: SlashFree(local(tag)) }

  lemma {:induction false} SegmentNames(local: string -> string, n: Node, a: Address)
    requires XmlNames(local) && IsElementAt(n, a)
    ensures NamesSlashFree(Segments(local, n, a)) && |Segments(local, n, a)| == |a|
    decreases |a|
  {
    if a != [] { SegmentNames(local, n.children[a[0]], a[1..]); }
  }

  /** Distinct elements of any tree have distinct paths. */
  lemma PathsInjective(local: string -> string, root: Node, a: Address, b: Address)
    requires XmlNames(local) && IsElementAt(root, a) && IsElementAt(root, b)
    ensures PathOf(local, root, a) == PathOf(local, root, b) <==> a == b
  {
    if PathOf(local, root, a) == PathOf(local, root, b) && a != b {
      var top := Segment(RootName(local, root), 1);
      var (s, t) := (Segments(local, root, a), Segments(local, root, b));
      SegmentNames(local, root, a);
      SegmentNames(local, root, b);
      RenderInjective([top] + s, [top] + t);
      assert s == ([top] + s)[1..] && t == ([top] + t)[1..];
      SegmentsDiffer(local, root, a, b);
    }
  }

  lemma {:induction false} SegmentsPrefix(local: string -> string, n: Node, a: Address, b: Address)
    requires IsElementAt(n, a) && IsElementAt(n, b)
    ensures a <= b <==> Segments(local, n, a) <= Segments(local, n, b)
    decreases |a|
  {
    if a == [] || b == [] { SegmentsLength(local, n, a); SegmentsLength(local, n, b); return; }
    var (s, t) := (Segments(local, n, a), Segments(local, n, b));
    assert a == [a[0]] + a[1..] && b == [b[0]] + b[1..];
    if a[0] == b[0] {
      SegmentsPrefix(local, n.children[a[0]], a[1..], b[1..]);
      PrefixTail(a, b);
      PrefixTail(s, t);
      assert s[1..] == Segments(local, n.children[a[0]], a[1..]) && t[1..] == Segments(local, n.children[a[0]], b[1..]);
    } else {
      if a[0] < b[0] { SiblingsDiffer(local, n.children, a[0], b[0]); } else {
        SiblingsDiffer(local, n.children, b[0], a[0]);
      }
      assert s[0] != t[0];
    }
  }

  lemma PrefixTail<T>(a: seq<T>, b: seq<T>)
    requires a != [] && b != [] && a[0] == b[0]
    ensures a <= b <==> a[1..] <= b[1..]
  {
    assert a == [a[0]] + a[1..] && b == [b[0]] + b[1..];
  }

  lemma {:induction false} SegmentsLength(local: string -> string, n: Node, a: Address)
    requires IsElementAt(n, a)
    ensures |Segments(local, n, a)| == |a|
    decreases |a|
  {
    if a != [] { SegmentsLength(local, n.children[a[0]], a[1..]); }
  }

  lemma RenderedPrefix(s: seq<Segment>, t: seq<Segment>)
    requires NamesSlashFree(s) && NamesSlashFree(t)
    ensures s < t <==> Render(s) + "/" <= Render(t)
  {
    if s < t { RenderPrefix(s, t); }
    if Render(s) + "/" <= Render(t) { PrefixOfRender(s, t); }
  }

  /** One element is an ancestor of another exactly when its path, ended by '/', begins the other's. */
  lemma AncestorIsPrefix(local: string -> string, root: Node, a: Address, b: Address)
    requires XmlNames(local) && root.Element? && IsElementAt(root, a) && IsElementAt(root, b)
    ensures (a < b) <==> (PathOf(local, root, a) + "/" <= PathOf(local, root, b))
  {
    hide Segments, Render, IsElementAt, SlashFree, RootName, XmlNames;
    var top := Segment(RootName(local, root), 1);
    var (s, t) := ([top] + Segments(local, root, a), [top] + Segments(local, root, b));
    TopSlashFree(local, root);
    SegmentNames(local, root, a);
    SegmentNames(local, root, b);
    SegmentsPrefix(local, root, a, b);
    PrefixTail(s, t);
    assert s[1..] == Segments(local, root, a) && t[1..] == Segments(local, root, b);
    RenderedPrefix(s, t);
  }

  lemma TopSlashFree(local: string -> string, root: Node)
    requires XmlNames(local) && root.Element?
    ensures SlashFree(RootName(local, root))
  {}

  lemma {:induction false} RenderPrefix(s: seq<Segment>, t: seq<Segment>)
    requires s < t
    ensures Render(s) + "/" <= Render(t)
    decreases |t|
  {
    if |s| < |t| - 1 {
      assert s < Front(t);
      RenderPrefix(s, Front(t));
    } else {
      assert s == Front(t);
    }
  }

  lemma {:induction false} PrefixOfRender(s: seq<Segment>, t: seq<Segment>)
    requires NamesSlashFree(s) && NamesSlashFree(t) && Render(s) + "/" <= Render(t)
    ensures s < t
    decreases |t|
  {
    if t == [] { return; }
    var (p, q, u) := (Render(s), Render(Front(t)), Text(Last(t)));
    TextSlashFree(Last(t));
    var x := q + "/" + u;
    SlashIsLast(q, u);
    assert x[|p|] == '/';
    if |p| == |q| {
      assert p == x[..|p|] == q;
      RenderInjective(s, Front(t));
      assert t == Front(t) + [Last(t)];
    } else {
      assert p + "/" == x[..|p| + 1] == q[..|p| + 1];
      PrefixOfRender(s, Front(t));
      assert Front(t) <= t;
    }
  }

  // ---- Object ids

  /** What `deterministic_object_id` digests, behind its prefix. */
  datatype IdBody = IdBody(source: nat, entityType: string, ordinal: nat, path: string)

  /** As long as the digest does not collide, objects at distinct elements of one document have
      distinct ids, whatever their prefixes, types and ordinals. */
  lemma ObjectIdsDistinct(local: string -> string, root: Node, digest: IdBody -> string, prefixes: (string, string),
                          a: Address, b: Address, x: IdBody, y: IdBody)
    requires XmlNames(local) && IsElementAt(root, a) && IsElementAt(root, b) && a != b
    requires x.path == PathOf(local, root, a) && y.path == PathOf(local, root, b)
    requires |digest(x)| == |digest(y)| && (digest(x) == digest(y) ==> x == y)
    ensures prefixes.0 + "_" + digest(x) != prefixes.1 + "_" + digest(y)
  {
    PathsInjective(local, root, a, b);
    EqualEnds(prefixes.0 + "_", digest(x), prefixes.1 + "_", digest(y));
  }

  lemma EqualEnds(a: string, x: string, b: string, y: string)
    requires |x| == |y|
    ensures a + x == b + y ==> x == y
  {
    assert x == (a + x)[|a + x| - |x|..] && y == (b + y)[|b + y| - |y|..];
  }

  /** The path of the root is its name, or "document" if it has none, with index 1. */
  lemma RootPath(local: string -> string, root: Node)
    requires root.Element?
    ensures IsElementAt(root, [])
    ensures local(root.tag) != "" ==> PathOf(local, root, []) == "/" + local(root.tag) + "[1]"
    ensures local(root.tag) == "" ==> PathOf(local, root, []) == "/document[1]"
  {
    var s := Segment(RootName(local, root), 1);
    assert [s] + Segments(local, root, []) == [s] && Front([s]) == [];
    assert Text(s) == s.name + ("[" + "1" + "]") && "[" + "1" + "]" == "[1]";
    assert Render([s]) == "/" + Text(s);
  }
}
