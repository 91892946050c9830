/**
 * `_extract_skills_from_skill_tree` (convert_fetched_jobs_to_api_format.py): the nested
 * `extract_skills_recursive` walk over a loaded skill-tree file, which appends the name of
 * every node typed "skill", followed by the truncation to 20 names and the `", "` join.
 *
 * The walk is specified by `Preorder`, the sequence of values the walk is called on
 * whose children it can reach (a dict's "children" list is descended into; a string or a
 * dict there is iterated but yields only strings, which the walk ignores).
 */
module SkillCollector {
  import opened Wrappers
  import opened PyText
  import opened JsonValue
  import opened Subsequences

  /** The value of `node['children']`, when `node` is a dict with that key. */
  function ChildrenOf(node: Json): Option<Json> {
    if node.Obj? && "children" in Keys(node.fields) then Some(node.fields[IndexOf(node.fields, "children")].1) else None
  }

  /** The values the walk is called on, node before children, children left to right. */
  function Preorder(node: Json): (r: seq<Json>)
    ensures |r| >= 1 && r[0] == node
    decreases node, 1
  {
    if node.Obj? && "children" in Keys(node.fields) then
      match node.fields[IndexOf(node.fields, "children")].1
      case Arr(items) => [node] + PreorderAll(items)
      case _ => [node]
    else [node]
  }

  /** The pre-orders of `items`, one after the other. */
  function PreorderAll(items: seq<Json>): seq<Json>
    decreases items, 0
  {
    if items == [] then [] else PreorderAll(items[..|items| - 1]) + Preorder(items[|items| - 1])
  }

  /** Iterating the node's children does not raise at this value. */
  predicate ChildrenIterable(node: Json) {
    match ChildrenOf(node)
    case None => true
    case Some(c) => Iterate(c).Some?
  }

  /** The walk does not raise at this value or below it. */
  predicate Walkable(node: Json)
    decreases node, 1
  {
    && ChildrenIterable(node)
    && if node.Obj? && "children" in Keys(node.fields) then
         match node.fields[IndexOf(node.fields, "children")].1
         case Arr(items) => WalkableAll(items)
         case _ => true
       else true
  }

  predicate WalkableAll(items: seq<Json>)
    decreases items, 0
  {
    forall k | 0 <= k < |items| :: Walkable(items[k])
  }

  /** Every value in `nodes` can have its "children" iterated. */
  predicate AllIterable(nodes: seq<Json>) {
    forall k | 0 <= k < |nodes| :: ChildrenIterable(nodes[k])
  }

  /** A dict node whose type is "skill". */
  predicate IsSkillNode(node: Json) {
    node.Obj? && Lookup(node.fields, "type") == Some(Str("skill"))
  }

  /** The node's name, the empty string without one. */
  function NameOrEmpty(node: Json): Json
    requires node.Obj?
  {
    Get(node.fields, "name", Str(""))
  }

  /** The names of the skill nodes among `nodes`, in order. */
  function SkillEntries(nodes: seq<Json>): (r: seq<Json>)
    ensures |r| <= |nodes|
  {
    if nodes == [] then []
    else
      var last := nodes[|nodes| - 1];
      SkillEntries(nodes[..|nodes| - 1]) + (if IsSkillNode(last) then [NameOrEmpty(last)] else [])
  }

  lemma {:induction false} SkillEntriesConcat(a: seq<Json>, b: seq<Json>)
    ensures SkillEntries(a + b) == SkillEntries(a) + SkillEntries(b)
    decreases |b|
  {
    if b == [] {
      ConcatNil(a);
      ConcatNil(SkillEntries(a));
    } else {
      var front, x := b[..|b| - 1], b[|b| - 1];
      ConcatDropLast(a, b);
      SkillEntriesConcat(a, front);
      ConcatAssoc(SkillEntries(a), SkillEntries(front), if IsSkillNode(x) then [NameOrEmpty(x)] else []);
    }
  }

  lemma PreorderAllSnoc(items: seq<Json>, j: nat)
    requires j < |items|
    ensures PreorderAll(items[..j + 1]) == PreorderAll(items[..j]) + Preorder(items[j])
  {
    PrefixSnoc(items, j);
  }

  lemma WalkableAllSnoc(items: seq<Json>, j: nat)
    requires j < |items|
    ensures WalkableAll(items[..j + 1]) <==> WalkableAll(items[..j]) && Walkable(items[j])
  {
    PrefixSnoc(items, j);
  }

  /** The Python walk: appends to `skills` and reports whether it got through. */
  method CollectSkills(node: Json, skills: seq<Json>) returns (ok: bool, out: seq<Json>)
    ensures ok <==> Walkable(node)
    ensures ok ==> out == skills + SkillEntries(Preorder(node))
    decreases node, 1
  {
    // a value that is not a dict is neither a skill node nor has "children"
    out := skills;
    if IsSkillNode(node) {
      out := out + [NameOrEmpty(node)];
    }
    SkillEntriesOne(node);
    var children := ChildrenOf(node);
    if children.Some? && children.value.Arr? {
      var items := children.value.items;
      ghost var own := out;
      ok, out := CollectChildren(items, out);
      ListStep(node, items, skills, own, out);
    } else {
      // absent, or a string or dict (iterated to strings, which the walk ignores),
      // or a value `for` cannot iterate
      ok := children.None? || children.value.Str? || children.value.Obj?;
      LeafStep(node);
    }
  }

  /** One step of the walk at a dict whose children are a list. */
  lemma ListStep(node: Json, items: seq<Json>, skills: seq<Json>, own: seq<Json>, out: seq<Json>)
    requires ChildrenOf(node) == Some(Arr(items))
    requires own == skills + SkillEntries([node])
    ensures Walkable(node) <==> WalkableAll(items)
    ensures out == own + SkillEntries(PreorderAll(items)) ==> out == skills + SkillEntries(Preorder(node))
  {
    WalkableFromChildren(node, items);
    var rest := PreorderAll(items);
    SkillEntriesConcat([node], rest);
    ConcatAssoc(skills, SkillEntries([node]), SkillEntries(rest));
  }

  /** One step of the walk at a value it does not descend below. */
  lemma LeafStep(node: Json)
    requires ChildrenOf(node).None? || !ChildrenOf(node).value.Arr?
    ensures Walkable(node) <==> ChildrenOf(node).None? || ChildrenOf(node).value.Str? || ChildrenOf(node).value.Obj?
    ensures SkillEntries(Preorder(node)) == SkillEntries([node])
  {
    WalkableLeaf(node);
  }

  /** The walk over each child of a list, in order. */
  method CollectChildren(items: seq<Json>, skills: seq<Json>) returns (ok: bool, out: seq<Json>)
    ensures ok <==> WalkableAll(items)
    ensures ok ==> out == skills + SkillEntries(PreorderAll(items))
    decreases items, 0
  {
    out := skills;
    var j := 0;
    while j < |items|
      invariant 0 <= j <= |items|
      invariant forall k | 0 <= k < j :: Walkable(items[k])
      invariant out == skills + SkillEntries(PreorderAll(items[..j]))
    {
      var childOk;
      ghost var before := out;
      childOk, out := CollectSkills(items[j], out);
      if !childOk {
        return false, out;
      }
      CollectStep(items, j, skills, before, out);
      WalkableExtend(items, j);
      j := j + 1;
    }
    assert items[..j] == items;
    ok := true;
  }

  lemma WalkableExtend(items: seq<Json>, j: nat)
    requires j < |items|
    requires forall k | 0 <= k < j :: Walkable(items[k])
    requires Walkable(items[j])
    ensures forall k | 0 <= k < j + 1 :: Walkable(items[k])
  {
  }

  /** The accumulated names after one more child has been walked. */
  lemma CollectStep(items: seq<Json>, j: nat, skills: seq<Json>, before: seq<Json>, after: seq<Json>)
    requires j < |items|
    requires before == skills + SkillEntries(PreorderAll(items[..j]))
    requires after == before + SkillEntries(Preorder(items[j]))
    ensures after == skills + SkillEntries(PreorderAll(items[..j + 1]))
  {
    var a, b := PreorderAll(items[..j]), Preorder(items[j]);
    PreorderAllSnoc(items, j);
    SkillEntriesConcat(a, b);
    ConcatAssoc(skills, SkillEntries(a), SkillEntries(b));
  }

  /** A list is walkable only if each of its prefixes is. */
  lemma {:induction false} WalkableAllPrefix(items: seq<Json>, j: nat)
    requires j <= |items|
    requires WalkableAll(items)
    ensures WalkableAll(items[..j])
    decreases |items|
  {
    if j < |items| {
      var init := items[..|items| - 1];
      WalkableAllPrefix(init, j);
      assert init[..j] == items[..j];
    } else {
      assert items[..j] == items;
    }
  }

  /** A dict whose children are a list is walkable exactly when every child is. */
  lemma WalkableFromChildren(node: Json, items: seq<Json>)
    requires ChildrenOf(node) == Some(Arr(items))
    ensures Preorder(node) == [node] + PreorderAll(items)
    ensures Walkable(node) <==> WalkableAll(items)
  {
  }

  /** A value the walk does not descend below. */
  lemma WalkableLeaf(node: Json)
    requires ChildrenOf(node).None? || !ChildrenOf(node).value.Arr?
    ensures Preorder(node) == [node]
    ensures Walkable(node) <==> ChildrenIterable(node)
  {
  }

  lemma AllIterableConcat(a: seq<Json>, b: seq<Json>)
    ensures AllIterable(a + b) <==> AllIterable(a) && AllIterable(b)
  {
    if AllIterable(a + b) {
      forall k | 0 <= k < |b|
        ensures ChildrenIterable(b[k])
      {
        assert (a + b)[|a| + k] == b[k];
      }
      forall k | 0 <= k < |a|
        ensures ChildrenIterable(a[k])
      {
        assert (a + b)[k] == a[k];
      }
    }
  }

  /**
   * The walk raises nowhere exactly when every value it is called on has an iterable
   * "children", or none.
   */
  lemma {:induction false} WalkableIff(node: Json)
    ensures Walkable(node) <==> AllIterable(Preorder(node))
    decreases node, 1
  {
    var children := ChildrenOf(node);
    if children.Some? && children.value.Arr? {
      var items := children.value.items;
      WalkableAllIff(items);
      AllIterableConcat([node], PreorderAll(items));
    }
  }

  lemma {:induction false} WalkableAllIff(items: seq<Json>)
    ensures WalkableAll(items) <==> AllIterable(PreorderAll(items))
    decreases items, 0
  {
    if items != [] {
      assert WalkableAll(items) <==> WalkableAll(items[..|items| - 1]) && Walkable(items[|items| - 1]);
      WalkableAllIff(items[..|items| - 1]);
      WalkableIff(items[|items| - 1]);
      AllIterableConcat(PreorderAll(items[..|items| - 1]), Preorder(items[|items| - 1]));
    }
  }

  /** At most the first 20 names. */
  function Take20(names: seq<Json>): (r: seq<Json>)
    ensures |r| <= 20 && |r| <= |names| && r == names[..|r|]
    ensures |names| >= 20 ==> |r| == 20
    ensures |names| < 20 ==> r == names
  {
    if |names| <= 20 then names else names[..20]
  }

  predicate AllStr(names: seq<Json>) {
    forall k | 0 <= k < |names| :: names[k].Str?
  }

  function Texts(names: seq<Json>): (r: seq<string>)
    requires AllStr(names)
    ensures |r| == |names|
    ensures forall k | 0 <= k < |names| :: r[k] == names[k].s
  {
    seq(|names|, k requires 0 <= k < |names| => names[k].s)
  }

  /**
   * What `_extract_skills_from_skill_tree` returns, given the id and the parsed file the
   * glob finds (`None` when there is no file or it does not parse). Any exception inside
   * (a non-iterable "children", a non-string among the joined names) gives `""`.
   */
  function SkillsFromTree(jobId: Json, tree: Option<Json>): (r: string)
    ensures !Truthy(jobId) || tree.None? ==> r == ""
  {
    if !Truthy(jobId) || tree.None? || !Walkable(tree.value) then ""
    else
      var names := Take20(SkillEntries(Preorder(tree.value)));
      if AllStr(names) then Join(Texts(names), ", ") else ""
  }

  /** `_extract_skills_from_skill_tree`, running the walk. */
  method ExtractSkillsFromSkillTree(jobId: Json, tree: Option<Json>) returns (r: string)
    ensures r == SkillsFromTree(jobId, tree)
  {
    if !Truthy(jobId) || tree.None? {
      return "";
    }
    var ok, skills := CollectSkills(tree.value, []);
    if !ok {
      return "";
    }
    assert skills == SkillEntries(Preorder(tree.value));
    var names := Take20(skills);
    if !AllStr(names) {
      return "";
    }
    r := Join(Texts(names), ", ");
  }

  // ---------------------------------------------------------------------------
  // Properties of the walk
  // ---------------------------------------------------------------------------

  /** A dict node's children list is walked right after the node, left to right. */
  lemma PreorderChildren(node: Json, front: seq<Json>, child: Json, back: seq<Json>)
    requires ChildrenOf(node) == Some(Arr(front + [child] + back))
    ensures Preorder(node) == [node] + PreorderAll(front) + Preorder(child) + PreorderAll(back)
  {
    var a, b, c := PreorderAll(front), Preorder(child), PreorderAll(back);
    WalkableFromChildren(node, front + [child] + back);
    PreorderAllOfThree(front, child, back);
    ConcatAssoc([node], a + b, c);
    ConcatAssoc([node], a, b);
  }

  lemma PreorderAllOfThree(front: seq<Json>, x: Json, back: seq<Json>)
    ensures PreorderAll(front + [x] + back) == PreorderAll(front) + Preorder(x) + PreorderAll(back)
  {
    PreorderAllConcat(front + [x], back);
    PreorderAllConcat(front, [x]);
    PreorderAllOne(x);
    ConcatAssoc(PreorderAll(front), Preorder(x), PreorderAll(back));
  }

  /** The pre-order of a concatenation is the concatenation of the pre-orders. */
  lemma {:induction false} PreorderAllConcat(a: seq<Json>, b: seq<Json>)
    ensures PreorderAll(a + b) == PreorderAll(a) + PreorderAll(b)
    decreases |b|
  {
    if b == [] {
      ConcatNil(a);
      ConcatNil(PreorderAll(a));
    } else {
      var front, x := b[..|b| - 1], b[|b| - 1];
      ConcatDropLast(a, b);
      PreorderAllConcat(a, front);
      ConcatAssoc(PreorderAll(a), PreorderAll(front), Preorder(x));
    }
  }

  lemma PreorderAllOne(node: Json)
    ensures PreorderAll([node]) == Preorder(node)
    ensures WalkableAll([node]) <==> Walkable(node)
  {
    ConcatNil(Preorder(node));
    assert [node][..0] == [];
  }

  /** Values that are not skill dicts contribute nothing; a skill dict contributes its name. */
  lemma SkillEntriesOne(node: Json)
    ensures SkillEntries([node]) == if IsSkillNode(node) then [NameOrEmpty(node)] else []
  {
  }
}
