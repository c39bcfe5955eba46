/** The section forest of a document: how the XML parser builds it
    (src/molly/documents/parsers/_xml_common.py:104-171, src/molly/documents/parsers/_common.py:94-114)
    and how the canonical document checks it (src/molly/documents/canonical.py:480-511). */
module Sections {
  import opened RunEvents

  // ---- Elements and their ancestors

  datatype Tag = SectionTag | ContainerTag | OtherTag

  /** An element tree: each element's tag and parent.  Numbering parents before children is
      document order, and it is what keeps the parent map free of cycles. */
  datatype Tree = Tree(tags: seq<Tag>, parents: seq<Option<nat>>) {
    predicate Valid() {
      |tags| == |parents| && forall i :: 0 <= i < |parents| && parents[i].Some? ==> parents[i].value < i
    }
  }

  /** `nearest_ancestor`. */
  function Nearest(t: Tree, i: nat, tag: Tag): (a: Option<nat>)
    requires t.Valid() && i < |t.tags|
    ensures a.Some? ==> a.value < i && t.tags[a.value] == tag
    decreases i
  {
    match t.parents[i]
    case None => None
    case Some(p) => if t.tags[p] == tag then Some(p) else Nearest(t, p, tag)
  }

  function SectionAncestors(t: Tree, i: nat): nat
    requires t.Valid() && i < |t.tags|
    decreases i
  {
    match t.parents[i]
    case None => 0
    case Some(p) => SectionAncestors(t, p) + (if t.tags[p] == SectionTag then 1 else 0)
  }

  /** A section tag that is not inside a table, a figure or a reference. */
  predicate IsSection(t: Tree, i: nat)
    requires t.Valid() && i < |t.tags|
  { t.tags[i] == SectionTag && Nearest(t, i, ContainerTag).None? }

  predicate InTree(t: Tree, order: seq<nat>) { forall k :: 0 <= k < |order| ==> order[k] < |t.tags| }

  /** The elements in the order the traversal yields them, filtered. */
  function SectionElements(t: Tree, order: seq<nat>): (s: seq<nat>)
    requires t.Valid() && InTree(t, order)
    ensures InTree(t, s) && |s| <= |order|
  {
    if order == [] then []
    else
      var before := SectionElements(t, Front(order));
      if IsSection(t, Last(order)) then before + [Last(order)] else before
  }

  datatype Section = Section(id: nat, parent: Option<nat>, level: nat)

  const MAX_LEVEL: nat := 100

  datatype SectionError = NotNormalizable | TooDeep

  function NextSection(t: Tree, earlier: seq<nat>, e: nat): Result<Section, SectionError>
    requires t.Valid() && e < |t.tags|
  {
    var parent := Nearest(t, e, SectionTag);
    if parent.Some? && parent.value !in earlier then Err(NotNormalizable)
    else if 1 + SectionAncestors(t, e) > MAX_LEVEL then Err(TooDeep)
    else Ok(Section(e, parent, 1 + SectionAncestors(t, e)))
  }

  /** One section after the other, until the first error. */
  function SectionsOf(t: Tree, elements: seq<nat>): Result<seq<Section>, SectionError>
    requires t.Valid() && InTree(t, elements)
  {
    if elements == [] then Ok([])
    else
      var before := SectionsOf(t, Front(elements));
      if before.Err? then before
      else
        match NextSection(t, Front(elements), Last(elements))
        case Err(error) => Err(error)
        case Ok(section) => Ok(before.value + [section])
  }

  // ---- The loops of `_make_sections`

  method NearestAncestor(t: Tree, i: nat, tag: Tag) returns (a: Option<nat>)
    requires t.Valid() && i < |t.tags|
    ensures a == Nearest(t, i, tag)
  {
    var current: Option<nat> := t.parents[i];
    while current.Some?
      invariant current.Some? ==> current.value < i
      invariant Nearest(t, i, tag) ==
                if current.None? then None
                else if t.tags[current.value] == tag then current else Nearest(t, current.value, tag)
      decreases if current.Some? then current.value + 1 else 0
    {
      if t.tags[current.value] == tag { return current; }
      current := t.parents[current.value];
    }
    a := None;
  }

  method CountSectionAncestors(t: Tree, i: nat) returns (n: nat)
    requires t.Valid() && i < |t.tags|
    ensures n == SectionAncestors(t, i)
  {
    n := 0;
    var ancestor: Option<nat> := t.parents[i];
    while ancestor.Some?
      invariant ancestor.Some? ==> ancestor.value < i
      invariant SectionAncestors(t, i) ==
                n + if ancestor.None? then 0
                    else SectionAncestors(t, ancestor.value) + (if t.tags[ancestor.value] == SectionTag then 1 else 0)
      decreases if ancestor.Some? then ancestor.value + 1 else 0
    {
      if t.tags[ancestor.value] == SectionTag { n := n + 1; }
      ancestor := t.parents[ancestor.value];
    }
  }

  /** `_make_sections`, for any order in which the elements are visited. */
  method MakeSections(t: Tree, elements: seq<nat>) returns (r: Result<seq<Section>, SectionError>)
    requires t.Valid() && InTree(t, elements)
    ensures r == SectionsOf(t, elements)
  {
    var sections: seq<Section> := [];
    var ids: set<nat> := {};
    var k := 0;
    while k < |elements|
      invariant 0 <= k <= |elements|
      invariant SectionsOf(t, elements[..k]) == Ok(sections)
      invariant forall i :: i in ids <==> i in elements[..k]
    {
      var e := elements[k];
      TakeNext(elements, k);
      assert elements[..k + 1] == elements[..k] + [e];
      if NextSection(t, elements[..k], e).Err? { SectionsStop(t, elements, k + 1); }
      var parent := NearestAncestor(t, e, SectionTag);
      if parent.Some? && parent.value !in ids { return Err(NotNormalizable); }
      var above := CountSectionAncestors(t, e);
      if 1 + above > MAX_LEVEL { return Err(TooDeep); }
      ids := ids + {e};
      sections := sections + [Section(e, parent, 1 + above)];
      k := k + 1;
    }
    assert elements[..k] == elements;
    r := Ok(sections);
  }

  lemma {:induction false} SectionsStop(t: Tree, elements: seq<nat>, n: nat)
    requires t.Valid() && InTree(t, elements)
    requires n <= |elements| && SectionsOf(t, elements[..n]).Err?
    ensures SectionsOf(t, elements) == SectionsOf(t, elements[..n])
  {
    if n < |elements| {
      assert Front(elements)[..n] == elements[..n];
      SectionsStop(t, Front(elements), n);
    } else {
      assert elements[..n] == elements;
    }
  }

  // ---- In document order the guard never fires, and levels follow parents

  /** The nearest section above a section is itself a section of the document, one level higher. */
  lemma {:induction false} ParentIsSection(t: Tree, i: nat)
    requires t.Valid() && i < |t.tags| && Nearest(t, i, ContainerTag).None?
    ensures var p := Nearest(t, i, SectionTag);
            if p.Some? then IsSection(t, p.value) && SectionAncestors(t, i) == SectionAncestors(t, p.value) + 1
            else SectionAncestors(t, i) == 0
    decreases i
  {
    if t.parents[i].Some? { ParentIsSection(t, t.parents[i].value); }
  }

  predicate Ascending(order: seq<nat>) { forall i, j :: 0 <= i < j < |order| ==> order[i] < order[j] }

  /** Every element of the tree is visited, earlier ones first. */
  ghost predicate DocumentOrder(t: Tree, order: seq<nat>) {
    Ascending(order) && InTree(t, order) && forall i: nat :: i < |t.tags| ==> i in order
  }

  lemma {:induction false} FilteredMembers(t: Tree, order: seq<nat>)
    requires t.Valid() && InTree(t, order)
    ensures forall i: nat :: i in SectionElements(t, order) <==> i in order && i < |t.tags| && IsSection(t, i)
  {
    if order == [] { return; }
    FilteredMembers(t, Front(order));
    assert order == Front(order) + [Last(order)];
  }

  lemma {:induction false} FilteredAscending(t: Tree, order: seq<nat>)
    requires t.Valid() && InTree(t, order) && Ascending(order)
    ensures Ascending(SectionElements(t, order))
  {
    if order == [] { return; }
    FilteredAscending(t, Front(order));
    FilteredMembers(t, Front(order));
    var before := SectionElements(t, Front(order));
    forall k | 0 <= k < |before| ensures before[k] < Last(order) {
      assert before[k] in Front(order);
    }
  }

  /** Every parent is listed before its child, exactly one level up; roots have level 1. */
  predicate Nested(sections: seq<Section>) {
    forall k :: 0 <= k < |sections| ==>
      if sections[k].parent.None? then sections[k].level == 1
      else
        exists j :: 0 <= j < k && Some(sections[j].id) == sections[k].parent
                    && sections[k].level == sections[j].level + 1
  }

  lemma {:induction false} SectionsForm(t: Tree, elements: seq<nat>)
    requires t.Valid() && InTree(t, elements) && SectionsOf(t, elements).Ok?
    ensures var sections := SectionsOf(t, elements).value;
            && |sections| == |elements|
            && forall k :: 0 <= k < |elements| ==>
                 sections[k] == Section(elements[k], Nearest(t, elements[k], SectionTag),
                     1 + SectionAncestors(t, elements[k]))
  {
    if elements != [] { SectionsForm(t, Front(elements)); }
  }

  /** Sections of the tree, with every section above them. */
  ghost predicate ClosedUpwards(t: Tree, elements: seq<nat>)
    requires t.Valid() && InTree(t, elements)
  {
    && (forall k :: 0 <= k < |elements| ==> IsSection(t, elements[k]))
    && (forall k, p: nat :: 0 <= k < |elements| && p < elements[k] && IsSection(t, p) ==> p in elements[..k])
  }

  lemma {:induction false} GuardIsDead(t: Tree, elements: seq<nat>)
    requires t.Valid() && InTree(t, elements) && ClosedUpwards(t, elements)
    ensures SectionsOf(t, elements) != Err(NotNormalizable)
    ensures SectionsOf(t, elements).Err? <==>
              exists k :: 0 <= k < |elements| && SectionAncestors(t, elements[k]) >= MAX_LEVEL
  {
    if elements == [] { return; }
    var (f, e) := (Front(elements), Last(elements));
    assert elements[..|f|] == f;
    forall k, p: nat | 0 <= k < |f| && p < f[k] && IsSection(t, p) ensures p in f[..k] {
      assert f[..k] == elements[..k] && f[k] == elements[k];
    }
    assert ClosedUpwards(t, f);
    GuardIsDead(t, f);
    assert IsSection(t, elements[|f|]);
    ParentIsSection(t, e);
    TooDeepSomewhere(t, elements);
  }

  lemma TooDeepSomewhere(t: Tree, elements: seq<nat>)
    requires t.Valid() && InTree(t, elements) && elements != []
    ensures (exists k :: 0 <= k < |elements| && SectionAncestors(t, elements[k]) >= MAX_LEVEL) <==>
              (exists k :: 0 <= k < |Front(elements)| && SectionAncestors(t, Front(elements)[k]) >= MAX_LEVEL)
              || SectionAncestors(t, Last(elements)) >= MAX_LEVEL
  {
    if k :| 0 <= k < |Front(elements)| && SectionAncestors(t, Front(elements)[k]) >= MAX_LEVEL {
      assert elements[k] == Front(elements)[k];
    }
    if k :| 0 <= k < |elements| && SectionAncestors(t, elements[k]) >= MAX_LEVEL {
      if k < |Front(elements)| { assert elements[k] == Front(elements)[k]; }
    }
    if SectionAncestors(t, Last(elements)) >= MAX_LEVEL { assert elements[|elements| - 1] == Last(elements); }
  }

  lemma SectionsClosed(t: Tree, order: seq<nat>)
    requires t.Valid() && DocumentOrder(t, order)
    ensures Ascending(SectionElements(t, order)) && ClosedUpwards(t, SectionElements(t, order))
  {
    FilteredAscending(t, order);
    FilteredMembers(t, order);
    var elements := SectionElements(t, order);
    forall k | 0 <= k < |elements| ensures IsSection(t, elements[k]) { assert elements[k] in elements; }
    forall k, p: nat | 0 <= k < |elements| && p < elements[k] && IsSection(t, p) ensures p in elements[..k] {
      assert p in order && p in elements;
      var j :| 0 <= j < |elements| && elements[j] == p;
      assert elements[..k][j] == p;
    }
  }

  /** `_make_sections` on a tree in document order: the only failure is the level limit of a section,
      and otherwise it yields the sections of the document, nested. */
  lemma SectionsNest(t: Tree, order: seq<nat>)
    requires t.Valid() && DocumentOrder(t, order)
    ensures var elements := SectionElements(t, order);
            var r := SectionsOf(t, elements);
            && (r.Err? <==> exists k :: 0 <= k < |elements| && SectionAncestors(t, elements[k]) >= MAX_LEVEL)
            && (r.Err? ==> r.error == TooDeep)
            && (r.Ok? ==> Nested(r.value) && Distinct(Ids(r.value)) && Ids(r.value) == elements)
  {
    SectionsClosed(t, order);
    var elements := SectionElements(t, order);
    GuardIsDead(t, elements);
    if SectionsOf(t, elements).Ok? {
      SectionsForm(t, elements);
      hide SectionsOf, SectionElements, DocumentOrder;
      NestedForm(t, elements, SectionsOf(t, elements).value);
    }
  }

  lemma NestedForm(t: Tree, elements: seq<nat>, sections: seq<Section>)
    requires t.Valid() && InTree(t, elements) && Ascending(elements) && ClosedUpwards(t, elements)
               && |sections| == |elements|
    requires forall k :: 0 <= k < |elements| ==>
               sections[k] == Section(elements[k], Nearest(t, elements[k], SectionTag),
                   1 + SectionAncestors(t, elements[k]))
    ensures Nested(sections) && Distinct(Ids(sections)) && Ids(sections) == elements
  {
    hide SectionAncestors, Nearest;
    forall k | 0 <= k < |sections|
      ensures if sections[k].parent.None? then sections[k].level == 1
              else
                exists j :: 0 <= j < k && Some(sections[j].id) == sections[k].parent
                            && sections[k].level == sections[j].level + 1
    {
      assert IsSection(t, elements[k]);
      ParentIsSection(t, elements[k]);
      var p := Nearest(t, elements[k], SectionTag);
      if p.Some? {
        assert p.value in elements[..k];
        var j :| 0 <= j < k && elements[j] == p.value;
        assert sections[j].id == p.value;
      }
    }
  }

  function Ids(sections: seq<Section>): (ids: seq<nat>)
    ensures |ids| == |sections| && forall k :: 0 <= k < |ids| ==> ids[k] == sections[k].id
  { seq(|sections|, k requires 0 <= k < |sections| => sections[k].id) }

  // ---- The check of the canonical document

  datatype HierarchyError = DuplicateIds | UnknownParent | Cycle

  /** Sections by id, each with its parent id. */
  type Parents = map<nat, Option<nat>>

  predicate ParentsKnown(m: Parents) { forall id :: id in m && m[id].Some? ==> m[id].value in m }

  /** `k` steps up from `id`, unless a root is passed. */
  function Up(m: Parents, id: nat, k: nat): (a: Option<nat>)
    requires ParentsKnown(m) && id in m
    ensures a.Some? ==> a.value in m
    decreases k
  {
    if k == 0 then Some(id) else if m[id].None? then None else Up(m, m[id].value, k - 1)
  }

  /** The chain of parents comes to an end. */
  ghost predicate ReachesRoot(m: Parents, id: nat)
    requires ParentsKnown(m) && id in m
  { exists k: nat :: Up(m, id, k).None? }

  ghost predicate OnCycle(m: Parents, id: nat)
    requires ParentsKnown(m) && id in m
  { exists k: nat :: k > 0 && Up(m, id, k) == Some(id) }

  lemma {:induction false} UpAdds(m: Parents, id: nat, a: nat, b: nat)
    requires ParentsKnown(m) && id in m
    ensures Up(m, id, a + b) == if Up(m, id, a).Some? then Up(m, Up(m, id, a).value, b) else None
    decreases a
  {
    if a > 0 && m[id].Some? { UpAdds(m, m[id].value, a - 1, b); }
  }

  lemma {:induction false} RoundAndRound(m: Parents, id: nat, k: nat, n: nat)
    requires ParentsKnown(m) && id in m && k > 0 && Up(m, id, k) == Some(id)
    ensures Up(m, id, n * k) == Some(id)
    decreases n
  {
    if n > 0 {
      RoundAndRound(m, id, k, n - 1);
      UpAdds(m, id, (n - 1) * k, k);
      assert n * k == (n - 1) * k + k;
    }
  }

  /** Who comes to a cycle never comes to a root. */
  lemma CycleHasNoRoot(m: Parents, id: nat, n: nat, c: nat, k: nat)
    requires ParentsKnown(m) && id in m && c in m && Up(m, id, n) == Some(c) && k > 0 && Up(m, c, k) == Some(c)
    ensures !ReachesRoot(m, id)
  {
    if j: nat :| Up(m, id, j).None? {
      RoundAndRound(m, c, k, j);
      UpAdds(m, id, n, j * k);
      assert j * k >= j;
      UpAdds(m, id, j, n + j * k - j);
    }
  }

  lemma StartOfChain(m: Parents, id: nat)
    requires ParentsKnown(m) && id in m
    ensures Up(m, id, 0) == Some(id)
  {}

  /** The inner loop for one section. */
  method FollowParents(m: Parents, id: nat) returns (ok: bool)
    requires ParentsKnown(m) && id in m
    ensures ok <==> ReachesRoot(m, id)
    ensures !ok ==> exists c :: c in m && OnCycle(m, c)
  {
    hide Up, ReachesRoot, OnCycle;
    StartOfChain(m, id);
    var seen: set<nat> := {};
    var current := id;
    ghost var steps: nat := 0;
    while m[current].Some?
      invariant current in m && Up(m, id, steps) == Some(current)
      invariant seen <= m.Keys
      invariant forall x :: x in seen ==> exists j: nat :: j < steps && Up(m, id, j) == Some(x)
      decreases |m.Keys - seen|
    {
      if current in seen {
        ghost var j: nat :| j < steps && Up(m, id, j) == Some(current);
        RepeatIsCycle(m, id, j, steps, current);
        return false;
      }
      OneStepUp(m, id, steps, current);
      assert m.Keys - (seen + {current}) == (m.Keys - seen) - {current};
      seen := seen + {current};
      current := m[current].value;
      steps := steps + 1;
    }
    OneStepUp(m, id, steps, current);
    RootIsReached(m, id, steps + 1);
    ok := true;
  }

  lemma OneStepUp(m: Parents, id: nat, steps: nat, current: nat)
    requires ParentsKnown(m) && id in m && Up(m, id, steps) == Some(current)
    ensures Up(m, id, steps + 1) == m[current]
  {
    UpAdds(m, id, steps, 1);
    if m[current].Some? { assert Up(m, m[current].value, 0) == m[current]; }
  }

  lemma RootIsReached(m: Parents, id: nat, k: nat)
    requires ParentsKnown(m) && id in m && Up(m, id, k).None?
    ensures ReachesRoot(m, id)
  {}

  lemma RepeatIsCycle(m: Parents, id: nat, first: nat, again: nat, c: nat)
    requires ParentsKnown(m) && id in m && first < again && Up(m, id, first) == Some(c) && Up(m, id, again) == Some(c)
    ensures !ReachesRoot(m, id) && OnCycle(m, c)
  {
    UpAdds(m, id, first, again - first);
    CycleHasNoRoot(m, id, first, c, again - first);
  }

  /** What the checks accept: unique ids, known parents, and every chain ends at a root. */
  ghost predicate Forest(sections: seq<Section>) {
    && Distinct(Ids(sections)) && ParentsKnown(ParentMap(sections))
    && forall id :: id in ParentMap(sections) ==> ReachesRoot(ParentMap(sections), id)
  }

  function ParentMap(sections: seq<Section>): (m: Parents)
    ensures forall id :: id in m <==> id in Ids(sections)
    ensures Distinct(Ids(sections)) ==> forall k :: 0 <= k < |sections| ==>
              sections[k].id in m && m[sections[k].id] == sections[k].parent
  {
    if sections == [] then map[]
    else
      var before := ParentMap(Front(sections));
      assert Ids(sections) == Ids(Front(sections)) + [Last(sections).id];
      assert Distinct(Ids(sections)) ==> Distinct(Ids(Front(sections))) && Last(sections).id !in Ids(Front(sections));
      before[Last(sections).id := Last(sections).parent]
  }

  method CheckParents(sections: seq<Section>, m: Parents) returns (known: bool)
    ensures known <==> forall k :: 0 <= k < |sections| && sections[k].parent.Some? ==> sections[k].parent.value in m
  {
    for k := 0 to |sections|
      invariant forall j :: 0 <= j < k && sections[j].parent.Some? ==> sections[j].parent.value in m
    {
      if sections[k].parent.Some? && sections[k].parent.value !in m { return false; }
    }
    known := true;
  }

  method CheckCycles(sections: seq<Section>, m: Parents) returns (ok: bool)
    requires ParentsKnown(m) && forall k :: 0 <= k < |sections| ==> sections[k].id in m
    ensures ok <==> forall k :: 0 <= k < |sections| ==> ReachesRoot(m, sections[k].id)
    ensures !ok ==> exists c :: c in m && OnCycle(m, c)
  {
    hide ReachesRoot, OnCycle;
    for k := 0 to |sections|
      invariant forall j :: 0 <= j < k ==> ReachesRoot(m, sections[j].id)
    {
      ok := FollowParents(m, sections[k].id);
      if !ok { return; }
    }
    ok := true;
  }

  /** The hierarchy checks of `CanonicalDocument`. */
  method CheckHierarchy(sections: seq<Section>) returns (error: Option<HierarchyError>)
    ensures error.None? <==> Forest(sections)
    ensures error == Some(DuplicateIds) <==> !Distinct(Ids(sections))
    ensures error == Some(Cycle) ==>
              && ParentsKnown(ParentMap(sections))
              && exists c :: c in ParentMap(sections) && OnCycle(ParentMap(sections), c)
  {
    if !Distinct(Ids(sections)) { return Some(DuplicateIds); }
    var m := ParentMap(sections);
    MapHasSections(sections);
    hide ParentMap, Distinct, Ids, ReachesRoot, OnCycle;
    var known := CheckParents(sections, m);
    if !known { return Some(UnknownParent); }
    var ok := CheckCycles(sections, m);
    error := if ok then None else Some(Cycle);
  }

  lemma MapHasSections(sections: seq<Section>)
    requires Distinct(Ids(sections))
    ensures var m := ParentMap(sections);
            && (forall k :: 0 <= k < |sections| ==> sections[k].id in m && m[sections[k].id] == sections[k].parent)
            && (forall id :: id in m ==> exists k :: 0 <= k < |sections| && sections[k].id == id)
  {
    var (m, ids) := (ParentMap(sections), Ids(sections));
    forall id | id in m ensures exists k :: 0 <= k < |sections| && sections[k].id == id {
      var k :| 0 <= k < |ids| && ids[k] == id;
      assert sections[k].id == id;
    }
  }

  // ---- What the parser makes passes the check

  lemma {:induction false} NestedReachesRoot(sections: seq<Section>, k: nat)
    requires Nested(sections) && Distinct(Ids(sections)) && k < |sections| && ParentsKnown(ParentMap(sections))
    ensures Up(ParentMap(sections), sections[k].id, sections[k].level).None?
    decreases k
  {
    var m := ParentMap(sections);
    assert m[sections[k].id] == sections[k].parent;
    hide ParentMap, Distinct;
    if sections[k].parent.Some? {
      var j :| 0 <= j < k && Some(sections[j].id) == sections[k].parent && sections[k].level == sections[j].level + 1;
      NestedReachesRoot(sections, j);
      hide Nested;
      assert Up(m, sections[k].id, sections[k].level) == Up(m, sections[j].id, sections[j].level);
    } else {
      assert sections[k].level == 1;
    }
  }

  /** Every section forest of the parser is accepted by the canonical document. */
  lemma ParserMakesForests(t: Tree, order: seq<nat>)
    requires t.Valid() && DocumentOrder(t, order) && SectionsOf(t, SectionElements(t, order)).Ok?
    ensures Forest(SectionsOf(t, SectionElements(t, order)).value)
  {
    hide SectionsOf, SectionElements, Forest;
    SectionsNest(t, order);
    NestedIsForest(SectionsOf(t, SectionElements(t, order)).value);
  }

  lemma NestedIsForest(sections: seq<Section>)
    requires Nested(sections) && Distinct(Ids(sections))
    ensures Forest(sections)
  {
    hide ParentMap;
    var (m, ids) := (ParentMap(sections), Ids(sections));
    forall id | id in m && m[id].Some? ensures m[id].value in m {
      var k :| 0 <= k < |ids| && ids[k] == id;
      assert m[sections[k].id] == sections[k].parent;
      var j :| 0 <= j < k && Some(sections[j].id) == sections[k].parent;
      assert ids[j] == sections[j].id;
    }
    forall id | id in m ensures ReachesRoot(m, id) {
      var k :| 0 <= k < |ids| && ids[k] == id;
      NestedReachesRoot(sections, k);
    }
  }
}
