/**
 * The expand/collapse state of the interactive page that `create_interactive_html`
 * (skill_tree_common.py) writes: the d3 hierarchy built from the saved tree, each node's
 * visible `children` slot and hidden `_children` slot, and the four operations that move
 * subtrees between them (`init`, the click handler, `expandAll`, `collapseAll`), plus
 * the pure class, colour and radius selectors.
 *
 * Nodes are numbered as `init` numbers them: by position in the hierarchy's descendant list, which
 * is breadth first, so a parent always has a smaller id than its children. A slot holds
 * `None` for JavaScript `null`/`undefined` and `Some(ids)` for an array of child nodes.
 */
module SkillTreeView {
  import opened Wrappers

  /** A slot: `null`/`undefined`, or an array of node ids. */
  type Slot = Option<seq<nat>>

  /**
   * The d3 hierarchy built from the tree data, flattened: the child ids, parent,
   * depth and `data.type` of every node. d3 gives a node a `children` array only when
   * its data has at least one child, so a leaf has `kids[i] == []`.
   */
  datatype Hierarchy = Hierarchy(kids: seq<seq<nat>>, parent: seq<nat>, depth: seq<nat>, kind: seq<Option<string>>)
  {
    /** Every column has one entry per node, and every parent is numbered before its child. */
    predicate Shaped() {
      && |kids| > 0 && |parent| == |kids| && |depth| == |kids| && |kind| == |kids|
      && (forall i | 0 < i < |kids| :: parent[i] < i)
    }

    /** The columns describe one tree rooted at node 0. */
    predicate Valid() {
      && Shaped()
      && depth[0] == 0
      && (forall i | 0 < i < |kids| :: depth[i] == depth[parent[i]] + 1 && i in kids[parent[i]])
      && (forall i, k | 0 <= i < |kids| && 0 <= k < |kids[i]| :: 0 < kids[i][k] < |kids| && parent[kids[i][k]] == i)
    }

    function Size(): nat {
      |kids|
    }
  }

  /** Both slots of every node, indexed by id. */
  datatype Slots = Slots(children: seq<Slot>, hidden: seq<Slot>)

  predicate Sized(h: Hierarchy, s: Slots) {
    |s.children| == h.Size() && |s.hidden| == h.Size()
  }

  /** A slot is empty or holds exactly the node's original (non-empty) children. */
  predicate SlotOk(h: Hierarchy, i: nat, o: Slot)
    requires i < h.Size()
  {
    o.None? || (h.kids[i] != [] && o.value == h.kids[i])
  }

  /**
   * The state invariant: no slot ever holds anything but the original children, and an
   * internal node always has them in one of its two slots, so no subtree is ever lost.
   */
  predicate SlotsOk(h: Hierarchy, s: Slots) {
    && Sized(h, s)
    && forall i | 0 <= i < h.Size() ::
         && SlotOk(h, i, s.children[i])
         && SlotOk(h, i, s.hidden[i])
         && (h.kids[i] != [] ==> s.children[i].Some? || s.hidden[i].Some?)
  }

  /**
   * A node is drawn (is in `root.descendants()`) when every ancestor shows it in its
   * visible slot.
   */
  predicate VisibleIn(h: Hierarchy, children: seq<Slot>, i: nat)
    requires h.Shaped() && |children| == h.Size() && i < h.Size()
    decreases i
  {
    if i == 0 then true
    else
      var p := h.parent[i];
      VisibleIn(h, children, p) && children[p].Some? && i in children[p].value
  }

  /** `init`: every node keeps its children in `_children`; nodes deeper than 2 hide them. */
  function InitSpec(h: Hierarchy): (s: Slots)
    requires h.Valid()
    ensures Sized(h, s)
  {
    Slots(seq(h.Size(), i requires 0 <= i < h.Size() => if h.kids[i] == [] || h.depth[i] > 2 then None else Some(h.kids[i])),
          seq(h.Size(), i requires 0 <= i < h.Size() => if h.kids[i] == [] then None else Some(h.kids[i])))
  }

  /** The click handler on node `i`. */
  function ClickSpec(s: Slots, i: nat): Slots
    requires i < |s.children| && i < |s.hidden|
  {
    if s.children[i].Some? then Slots(s.children[i := None], s.hidden[i := s.children[i]])
    else Slots(s.children[i := s.hidden[i]], s.hidden)
  }

  /** Whether `expandAll` touches node `i`: drawn when it starts, with a hidden array. */
  predicate ExpandsAt(h: Hierarchy, s: Slots, i: nat)
    requires h.Shaped() && Sized(h, s) && i < h.Size()
  {
    VisibleIn(h, s.children, i) && s.hidden[i].Some?
  }

  /** `expandAll`, over the nodes drawn when it is called. */
  function ExpandAllSpec(h: Hierarchy, s: Slots): (r: Slots)
    requires h.Shaped() && Sized(h, s)
    ensures Sized(h, r)
  {
    Slots(seq(h.Size(), i requires 0 <= i < h.Size() => if ExpandsAt(h, s, i) then s.hidden[i] else s.children[i]),
          seq(h.Size(), i requires 0 <= i < h.Size() => if ExpandsAt(h, s, i) then None else s.hidden[i]))
  }

  /** Whether `collapseAll` touches node `i`: drawn, showing children, deeper than 1. */
  predicate CollapsesAt(h: Hierarchy, s: Slots, i: nat)
    requires h.Shaped() && Sized(h, s) && i < h.Size()
  {
    VisibleIn(h, s.children, i) && s.children[i].Some? && h.depth[i] > 1
  }

  /** `collapseAll`, over the nodes drawn when it is called. */
  function CollapseAllSpec(h: Hierarchy, s: Slots): (r: Slots)
    requires h.Shaped() && Sized(h, s)
    ensures Sized(h, r)
  {
    Slots(seq(h.Size(), i requires 0 <= i < h.Size() => if CollapsesAt(h, s, i) then None else s.children[i]),
          seq(h.Size(), i requires 0 <= i < h.Size() => if CollapsesAt(h, s, i) then s.children[i] else s.hidden[i]))
  }

  /** The drawn nodes with ids below `n`, in increasing order. */
  function VisibleUpTo(h: Hierarchy, children: seq<Slot>, n: nat): seq<nat>
    requires h.Shaped() && |children| == h.Size() && n <= h.Size()
  {
    if n == 0 then [] else VisibleUpTo(h, children, n - 1) + (if VisibleIn(h, children, n - 1) then [n - 1] else [])
  }

  /** `drawn` records, for the first nodes, whether each is drawn. */
  predicate DrawnUpTo(h: Hierarchy, children: seq<Slot>, drawn: seq<bool>)
    requires h.Shaped() && |children| == h.Size() && |drawn| <= h.Size()
  {
    forall j | 0 <= j < |drawn| :: drawn[j] == VisibleIn(h, children, j)
  }

  /** Whether the next node is drawn follows from whether the nodes before it are. */
  lemma DrawStep(h: Hierarchy, children: seq<Slot>, drawn: seq<bool>)
    requires h.Shaped() && |children| == h.Size() && |drawn| < h.Size() && DrawnUpTo(h, children, drawn)
    ensures var i, p := |drawn|, h.parent[|drawn|];
            && VisibleIn(h, children, i) == (i == 0 || (drawn[p] && children[p].Some? && i in children[p].value))
            && DrawnUpTo(h, children, drawn + [VisibleIn(h, children, i)])
            && VisibleUpTo(h, children, i + 1) == VisibleUpTo(h, children, i) + if VisibleIn(h, children, i) then [i] else []
  {
  }

  /** `VisibleUpTo` lists exactly the drawn nodes below `n`, each once, in increasing order. */
  lemma {:induction false} VisibleUpToSpec(h: Hierarchy, children: seq<Slot>, n: nat)
    requires h.Shaped() && |children| == h.Size() && n <= h.Size()
    ensures var r := VisibleUpTo(h, children, n);
            && (forall k | 0 <= k < |r| :: r[k] < n && VisibleIn(h, children, r[k]))
            && (forall i | 0 <= i < n && VisibleIn(h, children, i) :: i in r)
            && (forall k, l | 0 <= k < l < |r| :: r[k] < r[l])
  {
    if n > 0 {
      VisibleUpToSpec(h, children, n - 1);
    }
  }

  // ---------------------------------------------------------------------------
  // The page state
  // ---------------------------------------------------------------------------

  class TreeView {
    const h: Hierarchy
    var children: seq<Slot>
    var hidden: seq<Slot>

    function State(): Slots
      reads this
    {
      Slots(children, hidden)
    }

    ghost predicate Valid()
      reads this
    {
      h.Valid() && SlotsOk(h, State())
    }

    /** `init`, over `root.descendants()` of the fully expanded hierarchy. */
    constructor Init(hierarchy: Hierarchy)
      requires hierarchy.Valid()
      ensures h == hierarchy
      ensures State() == InitSpec(hierarchy)
      ensures Valid()
    {
      h := hierarchy;
      var shown: seq<Slot> := [];
      var stored: seq<Slot> := [];
      var i := 0;
      while i < hierarchy.Size()
        invariant 0 <= i <= hierarchy.Size()
        invariant |shown| == i && |stored| == i
        invariant forall j | 0 <= j < i :: stored[j] == InitSpec(hierarchy).hidden[j]
        invariant forall j | 0 <= j < i :: shown[j] == InitSpec(hierarchy).children[j]
      {
        var slot: Slot := if hierarchy.kids[i] == [] then None else Some(hierarchy.kids[i]);
        stored := stored + [slot];
        shown := shown + [if hierarchy.depth[i] > 2 then None else slot];
        i := i + 1;
      }
      children := shown;
      hidden := stored;
      new;
      InitOk(hierarchy);
    }

    /** The ids of the drawn nodes, in increasing order (d3's breadth-first order). */
    method Descendants() returns (ids: seq<nat>)
      requires h.Shaped() && |children| == h.Size()
      ensures ids == VisibleUpTo(h, children, h.Size())
      ensures forall k | 0 <= k < |ids| :: ids[k] < h.Size() && VisibleIn(h, children, ids[k])
      ensures forall i | 0 <= i < h.Size() && VisibleIn(h, children, i) :: i in ids
      ensures forall k, l | 0 <= k < l < |ids| :: ids[k] < ids[l]
    {
      var drawn: seq<bool> := [];
      ids := [];
      var i := 0;
      while i < h.Size()
        invariant 0 <= i <= h.Size() && |drawn| == i
        invariant DrawnUpTo(h, children, drawn)
        invariant ids == VisibleUpTo(h, children, i)
      {
        var p := h.parent[i];
        DrawStep(h, children, drawn);
        var shown := i == 0 || (drawn[p] && children[p].Some? && i in children[p].value);
        drawn := drawn + [shown];
        if shown {
          ids := ids + [i];
        }
        i := i + 1;
      }
      VisibleUpToSpec(h, children, h.Size());
    }

    /** The click handler: hide shown children, or show the hidden ones. */
    method Click(i: nat)
      requires Valid() && i < h.Size()
      modifies this
      ensures Valid()
      ensures State() == ClickSpec(old(State()), i)
    {
      if children[i].Some? {
        hidden := hidden[i := children[i]];
        children := children[i := None];
      } else {
        children := children[i := hidden[i]];
      }
      ClickOk(h, old(State()), i);
    }

    /** `expandAll`: every node drawn at the call shows its hidden children, and forgets them. */
    method ExpandAll()
      requires Valid()
      modifies this
      ensures Valid()
      ensures State() == ExpandAllSpec(h, old(State()))
    {
      var ids := Descendants();
      ghost var s0 := State();
      ExpandEach(ids);
      ExpandOverVisible(h, s0, ids);
      ExpandAllOk(h, s0);
    }

    /** The loop of `expandAll` over the nodes `ids`, in order. */
    method ExpandEach(ids: seq<nat>)
      requires Sized(h, State())
      requires forall k | 0 <= k < |ids| :: ids[k] < h.Size()
      requires forall a, b | 0 <= a < b < |ids| :: ids[a] < ids[b]
      modifies this
      ensures State() == ExpandOver(old(State()), ids)
    {
      ghost var s0 := State();
      var k := 0;
      while k < |ids|
        invariant 0 <= k <= |ids|
        invariant State() == ExpandOver(s0, ids[..k])
      {
        var d := ids[k];
        ExpandOverStep(s0, ids, k);
        if hidden[d].Some? {
          children := children[d := hidden[d]];
          hidden := hidden[d := None];
        }
        k := k + 1;
      }
      assert ids[..k] == ids;
    }

    /** `collapseAll`: every node drawn at the call, deeper than 1, hides its children. */
    method CollapseAll()
      requires Valid()
      modifies this
      ensures Valid()
      ensures State() == CollapseAllSpec(h, old(State()))
    {
      var ids := Descendants();
      ghost var s0 := State();
      CollapseEach(ids);
      CollapseOverVisible(h, s0, ids);
      CollapseAllOk(h, s0);
    }

    /** The loop of `collapseAll` over the nodes `ids`, in order. */
    method CollapseEach(ids: seq<nat>)
      requires Sized(h, State()) && |h.depth| == h.Size()
      requires forall k | 0 <= k < |ids| :: ids[k] < h.Size()
      requires forall a, b | 0 <= a < b < |ids| :: ids[a] < ids[b]
      modifies this
      ensures State() == CollapseOver(h, old(State()), ids)
    {
      ghost var s0 := State();
      var k := 0;
      while k < |ids|
        invariant 0 <= k <= |ids|
        invariant State() == CollapseOver(h, s0, ids[..k])
      {
        var d := ids[k];
        CollapseOverStep(h, s0, ids, k);
        if children[d].Some? && h.depth[d] > 1 {
          hidden := hidden[d := children[d]];
          children := children[d := None];
        }
        k := k + 1;
      }
      assert ids[..k] == ids;
    }
  }

  // ---------------------------------------------------------------------------
  // The loops of expandAll and collapseAll
  // ---------------------------------------------------------------------------

  /** The state after `expandAll`'s loop has visited the nodes `done`. */
  function ExpandOver(s: Slots, done: seq<nat>): (r: Slots)
    requires |s.children| == |s.hidden|
    ensures |r.children| == |r.hidden| == |s.children|
  {
    Slots(seq(|s.children|, j requires 0 <= j < |s.children| => if j in done && s.hidden[j].Some? then s.hidden[j] else s.children[j]),
          seq(|s.children|, j requires 0 <= j < |s.children| => if j in done && s.hidden[j].Some? then None else s.hidden[j]))
  }

  /** The state after `collapseAll`'s loop has visited the nodes `done`. */
  function CollapseOver(h: Hierarchy, s: Slots, done: seq<nat>): (r: Slots)
    requires Sized(h, s) && |h.depth| == h.Size()
    ensures |r.children| == |r.hidden| == |s.children|
  {
    Slots(seq(|s.children|, j requires 0 <= j < |s.children| => if j in done && s.children[j].Some? && h.depth[j] > 1 then None else s.children[j]),
          seq(|s.children|, j requires 0 <= j < |s.children| => if j in done && s.children[j].Some? && h.depth[j] > 1 then s.children[j] else s.hidden[j]))
  }

  /** One turn of `expandAll`'s loop, on a node not visited before. */
  lemma ExpandOverStep(s: Slots, ids: seq<nat>, k: nat)
    requires |s.children| == |s.hidden| && k < |ids| && ids[k] < |s.children|
    requires forall a, b | 0 <= a < b < |ids| :: ids[a] < ids[b]
    ensures var p, d := ExpandOver(s, ids[..k]), ids[k];
            ExpandOver(s, ids[..k + 1])
            == if p.hidden[d].Some? then Slots(p.children[d := p.hidden[d]], p.hidden[d := None]) else p
  {
    var d := ids[k];
    assert d !in ids[..k];
    assert ids[..k + 1] == ids[..k] + [d];
  }

  /** One turn of `collapseAll`'s loop, on a node not visited before. */
  lemma CollapseOverStep(h: Hierarchy, s: Slots, ids: seq<nat>, k: nat)
    requires Sized(h, s) && |h.depth| == h.Size() && k < |ids| && ids[k] < h.Size()
    requires forall a, b | 0 <= a < b < |ids| :: ids[a] < ids[b]
    ensures var p, d := CollapseOver(h, s, ids[..k]), ids[k];
            CollapseOver(h, s, ids[..k + 1])
            == if p.children[d].Some? && h.depth[d] > 1 then Slots(p.children[d := None], p.hidden[d := p.children[d]]) else p
  {
    var d := ids[k];
    assert d !in ids[..k];
    assert ids[..k + 1] == ids[..k] + [d];
  }

  /** Visiting exactly the drawn nodes is `expandAll`. */
  lemma ExpandOverVisible(h: Hierarchy, s: Slots, ids: seq<nat>)
    requires h.Shaped() && Sized(h, s)
    requires forall k | 0 <= k < |ids| :: ids[k] < h.Size() && VisibleIn(h, s.children, ids[k])
    requires forall i | 0 <= i < h.Size() && VisibleIn(h, s.children, i) :: i in ids
    ensures ExpandOver(s, ids) == ExpandAllSpec(h, s)
  {
  }

  /** Visiting exactly the drawn nodes is `collapseAll`. */
  lemma CollapseOverVisible(h: Hierarchy, s: Slots, ids: seq<nat>)
    requires h.Shaped() && Sized(h, s)
    requires forall k | 0 <= k < |ids| :: ids[k] < h.Size() && VisibleIn(h, s.children, ids[k])
    requires forall i | 0 <= i < h.Size() && VisibleIn(h, s.children, i) :: i in ids
    ensures CollapseOver(h, s, ids) == CollapseAllSpec(h, s)
  {
  }

  // ---------------------------------------------------------------------------
  // The invariant is kept
  // ---------------------------------------------------------------------------

  lemma InitOk(h: Hierarchy)
    requires h.Valid()
    ensures SlotsOk(h, InitSpec(h))
  {
  }

  lemma ClickOk(h: Hierarchy, s: Slots, i: nat)
    requires h.Valid() && SlotsOk(h, s) && i < h.Size()
    ensures SlotsOk(h, ClickSpec(s, i))
  {
  }

  lemma ExpandAllOk(h: Hierarchy, s: Slots)
    requires h.Valid() && SlotsOk(h, s)
    ensures SlotsOk(h, ExpandAllSpec(h, s))
  {
  }

  lemma CollapseAllOk(h: Hierarchy, s: Slots)
    requires h.Valid() && SlotsOk(h, s)
    ensures SlotsOk(h, CollapseAllSpec(h, s))
  {
  }

  // ---------------------------------------------------------------------------
  // What the operations do to the drawing
  // ---------------------------------------------------------------------------

  /**
   * Clicking a node twice gives back its visible slot, and its hidden slot afterwards
   * holds its original children whenever it has any.
   */
  lemma ClickTwice(h: Hierarchy, s: Slots, i: nat)
    requires h.Valid() && SlotsOk(h, s) && i < h.Size()
    ensures ClickSpec(ClickSpec(s, i), i).children == s.children
    ensures var r := ClickSpec(ClickSpec(s, i), i).hidden;
            r == s.hidden[i := if h.kids[i] == [] then None else Some(h.kids[i])]
  {
  }

  /** After `init` exactly the nodes of depth at most 3 are drawn. */
  lemma {:induction false} InitVisible(h: Hierarchy, i: nat)
    requires h.Valid() && i < h.Size()
    ensures VisibleIn(h, InitSpec(h).children, i) <==> h.depth[i] <= 3
  {
    if i > 0 {
      InitVisible(h, h.parent[i]);
    }
  }

  /**
   * `expandAll` only works on the nodes drawn when it starts, so right after `init` it
   * draws exactly the nodes of depth at most 4: every node of a tree of height at most 4.
   */
  lemma {:induction false} InitExpandAllVisible(h: Hierarchy, i: nat)
    requires h.Valid() && i < h.Size()
    ensures VisibleIn(h, ExpandAllSpec(h, InitSpec(h)).children, i) <==> h.depth[i] <= 4
  {
    if i > 0 {
      var p := h.parent[i];
      InitExpandAllVisible(h, p);
      InitVisible(h, p);
    }
  }

  /**
   * After `collapseAll` the drawn nodes are those drawn before at depth at most 2: the
   * root and the depth-1 nodes keep their children on screen.
   */
  lemma {:induction false} CollapseAllVisible(h: Hierarchy, s: Slots, i: nat)
    requires h.Valid() && Sized(h, s) && i < h.Size()
    ensures VisibleIn(h, CollapseAllSpec(h, s).children, i) <==> VisibleIn(h, s.children, i) && h.depth[i] <= 2
  {
    if i > 0 {
      CollapseAllVisible(h, s, h.parent[i]);
    }
  }

  /** `expandAll` hides nothing: every node drawn before is drawn after. */
  lemma {:induction false} ExpandAllKeepsVisible(h: Hierarchy, s: Slots, i: nat)
    requires h.Valid() && SlotsOk(h, s) && i < h.Size()
    requires VisibleIn(h, s.children, i)
    ensures VisibleIn(h, ExpandAllSpec(h, s).children, i)
  {
    if i > 0 {
      ExpandAllKeepsVisible(h, s, h.parent[i]);
    }
  }

  /** After `expandAll`, every node that was drawn shows all its children. */
  lemma ExpandAllShowsChildren(h: Hierarchy, s: Slots, i: nat)
    requires h.Valid() && SlotsOk(h, s) && i < h.Size()
    requires VisibleIn(h, s.children, i) && h.kids[i] != []
    ensures ExpandAllSpec(h, s).children[i] == Some(h.kids[i])
    ensures ExpandAllSpec(h, s).hidden[i] == None
  {
  }

  // ---------------------------------------------------------------------------
  // Selectors
  // ---------------------------------------------------------------------------

  /** The leaf types that have a class and a colour of their own. */
  const LeafTypes: set<string> := {"certification", "qualification", "requirement"}

  /** The `class` attribute of a node entering the drawing. */
  function NodeClass(showing: Slot, kind: Option<string>): (r: string)
    ensures r == "node node--internal" <==> showing.Some?
    ensures showing.None? && kind.Some? && kind.value in LeafTypes ==> r == "node node--" + kind.value
    ensures showing.None? && (kind.None? || kind.value !in LeafTypes) ==> r == "node node--leaf"
  {
    if showing.Some? then "node node--internal"
    else if kind == Some("certification") then "node node--certification"
    else if kind == Some("qualification") then "node node--qualification"
    else if kind == Some("requirement") then "node node--requirement"
    else "node node--leaf"
  }

  /** The circle fill: the root's colour first, then the type colours, then internal or leaf. */
  function NodeFill(depth: nat, showing: Slot, kind: Option<string>): (r: string)
    ensures depth == 0 ==> r == "#667eea"
    ensures depth > 0 && kind == Some("certification") ==> r == "#FF9800"
    ensures depth > 0 && kind == Some("qualification") ==> r == "#2196F3"
    ensures depth > 0 && kind == Some("requirement") ==> r == "#F44336"
    ensures depth > 0 && (kind.None? || kind.value !in LeafTypes) ==> r == (if showing.Some? then "#764ba2" else "#4CAF50")
  {
    if depth == 0 then "#667eea"
    else if kind == Some("certification") then "#FF9800"
    else if kind == Some("qualification") then "#2196F3"
    else if kind == Some("requirement") then "#F44336"
    else if showing.Some? then "#764ba2" else "#4CAF50"
  }

  /** The circle radius by depth. */
  function Radius(depth: nat): (r: nat)
    ensures r in {15, 12, 8}
    ensures (r == 15 <==> depth == 0) && (r == 12 <==> depth == 1) && (r == 8 <==> depth >= 2)
  {
    if depth == 0 then 15 else if depth == 1 then 12 else 8
  }

  /** Deeper nodes are never drawn larger. */
  lemma RadiusNonIncreasing(a: nat, b: nat)
    requires a <= b
    ensures Radius(b) <= Radius(a)
  {
  }

  /** A typed leaf keeps its type's class whether it was clicked or not. */
  lemma LeafClassStable(h: Hierarchy, s: Slots, i: nat)
    requires h.Valid() && SlotsOk(h, s) && i < h.Size() && h.kids[i] == []
    ensures NodeClass(ClickSpec(s, i).children[i], h.kind[i]) == NodeClass(s.children[i], h.kind[i])
    ensures h.kind[i] == Some("certification") ==> NodeClass(s.children[i], h.kind[i]) == "node node--certification"
  {
  }
}
