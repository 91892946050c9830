/**
 * How the pieces fit together: the skill collector of the converter run on a tree that
 * `build_skill_tree` produced, and the URL backfill reading the id back out of the file
 * name the generator gave a tree.
 */
module Pipeline {
  import opened Wrappers
  import opened PyText
  import opened JsonValue
  import opened SkillTreeBuild
  import opened SkillCollector
  import opened Subsequences
  import JobSkillTree
  import UrlBackfill

  /** The entries of a truthy list-valued entry; nothing for a falsy one. */
  function EntriesOf(v: Json): seq<Json>
    requires IterableWhenTruthy(v)
  {
    if Truthy(v) then Iterate(v).value else []
  }

  /** The entries of every technical category, category by category in dict order. */
  function CategorySkills(cats: seq<(string, Json)>): seq<Json>
    requires CategoriesIterable(cats)
  {
    if cats == [] then [] else CategorySkills(cats[..|cats| - 1]) + EntriesOf(cats[|cats| - 1].1)
  }

  /** The entries of the "technical" dict, when there is one. */
  function TechnicalSkills(skills: seq<(string, Json)>): seq<Json>
    requires TechnicalOk(skills)
  {
    match Lookup(skills, "technical")
    case None => []
    case Some(t) => CategorySkills(t.fields)
  }

  /** The technical entries, then the soft skills (`Buckets[0]`), then the domains (`Buckets[1]`) of a skill record. */
  function RecordSkills(data: Json): seq<Json>
    requires WellShaped(data)
  {
    var skills := SkillsOf(data);
    TechnicalSkills(skills) + EntriesOf(Get(skills, Buckets[0].key, Null)) + EntriesOf(Get(skills, Buckets[1].key, Null))
  }

  // ---------------------------------------------------------------------------
  // The walk over the nodes the builder makes
  // ---------------------------------------------------------------------------

  /** A leaf has no "children", so the walk stops at it. */
  lemma LeafPreorder(entry: Json, kind: string)
    ensures Preorder(Leaf(entry, kind)) == [Leaf(entry, kind)]
    ensures Walkable(Leaf(entry, kind))
    ensures IsSkillNode(Leaf(entry, kind)) <==> kind == "skill"
  {
    var fields := [("name", entry), ("type", Str(kind))];
    assert Keys(fields) == ["name", "type"];
    assert Lookup(fields, "type") == Some(Str(kind));
  }

  /** A category node is walked before its children, and is not itself a skill. */
  lemma NodePreorder(name: string, children: seq<Json>)
    ensures Preorder(Node(name, children)) == [Node(name, children)] + PreorderAll(children)
    ensures Walkable(Node(name, children)) <==> WalkableAll(children)
    ensures !IsSkillNode(Node(name, children))
  {
    var fields := [("name", Str(name)), ("children", Arr(children))];
    assert Keys(fields) == ["name", "children"];
    assert IndexOf(fields, "children") == 1;
    assert Lookup(fields, "type").None?;
  }

  lemma WalkableAllConcat(a: seq<Json>, b: seq<Json>)
    ensures WalkableAll(a + b) <==> WalkableAll(a) && WalkableAll(b)
  {
    assert forall k | 0 <= k < |a| :: (a + b)[k] == a[k];
    assert forall k | 0 <= k < |b| :: (a + b)[|a| + k] == b[k];
  }

  /** The leaves of a branch are walked in order; only `skill` leaves give names. */
  lemma {:induction false} LeavesCollected(entries: seq<Json>, kind: string)
    ensures SkillEntries(PreorderAll(Leaves(entries, kind))) == if kind == "skill" then entries else []
  {
    if entries != [] {
      var init, last := entries[..|entries| - 1], entries[|entries| - 1];
      var ls, leaf := Leaves(entries, kind), Leaf(last, kind);
      assert ls[..|ls| - 1] == Leaves(init, kind);
      assert ls[|ls| - 1] == leaf;
      LeavesCollected(init, kind);
      LeafPreorder(last, kind);
      SkillEntriesOne(leaf);
      SkillEntriesConcat(PreorderAll(Leaves(init, kind)), [leaf]);
      calc {
        SkillEntries(PreorderAll(ls));
        SkillEntries(PreorderAll(Leaves(init, kind)) + [leaf]);
        SkillEntries(PreorderAll(Leaves(init, kind))) + SkillEntries([leaf]);
      }
      if kind == "skill" {
        assert NameOrEmpty(leaf) == last;
        SnocDropLast(entries);
      }
    }
  }

  /** The walk gets through every leaf. */
  lemma LeavesWalkable(entries: seq<Json>, kind: string)
    ensures WalkableAll(Leaves(entries, kind))
  {
    forall k | 0 <= k < |entries|
      ensures Walkable(Leaves(entries, kind)[k])
    {
      LeafPreorder(entries[k], kind);
    }
  }

  /** A node with its leaves gives the names of its `skill` leaves. */
  lemma NodeCollected(name: string, entries: seq<Json>, kind: string)
    ensures SkillEntries(Preorder(Node(name, Leaves(entries, kind)))) == if kind == "skill" then entries else []
    ensures Walkable(Node(name, Leaves(entries, kind)))
  {
    var n := Node(name, Leaves(entries, kind));
    NodePreorder(name, Leaves(entries, kind));
    LeavesCollected(entries, kind);
    LeavesWalkable(entries, kind);
    SkillEntriesConcat([n], PreorderAll(Leaves(entries, kind)));
    SkillEntriesOne(n);
  }

  /** The category nodes give their entries, category by category. */
  lemma {:induction false} CategoryNodesCollected(cats: seq<(string, Json)>)
    requires CategoriesIterable(cats)
    ensures SkillEntries(PreorderAll(CategoryNodes(cats))) == CategorySkills(cats)
    ensures WalkableAll(CategoryNodes(cats))
  {
    if cats != [] {
      var init, last := cats[..|cats| - 1], cats[|cats| - 1];
      assert CategoriesIterable(init);
      CategoryNodesCollected(init);
      var before := CategoryNodes(init);
      var added := if Truthy(last.1) then [Node(CategoryTitle(last.0), Leaves(Iterate(last.1).value, "skill"))] else [];
      assert CategoryNodes(cats) == before + added;
      PreorderAllConcat(before, added);
      SkillEntriesConcat(PreorderAll(before), PreorderAll(added));
      WalkableAllConcat(before, added);
      if Truthy(last.1) {
        NodeCollected(CategoryTitle(last.0), Iterate(last.1).value, "skill");
        PreorderAllOne(added[0]);
      }
    }
  }

  /** What one possible depth-1 branch contributes to the walk. */
  function BranchSkills(skills: seq<(string, Json)>, i: nat): seq<Json>
    requires TechnicalOk(skills) && BucketsOk(skills)
    requires i < |BranchTitles|
  {
    if i == 0 then TechnicalSkills(skills)
    else if Buckets[i - 1].kind == "skill" then EntriesOf(Get(skills, Buckets[i - 1].key, Null))
    else []
  }

  /** The "Technical Skills" branch gives the entries of its categories. */
  lemma TechnicalCollected(skills: seq<(string, Json)>)
    requires TechnicalOk(skills)
    ensures SkillEntries(PreorderAll(TechnicalBranch(skills))) == TechnicalSkills(skills)
    ensures WalkableAll(TechnicalBranch(skills))
  {
    match Lookup(skills, "technical")
    case None =>
    case Some(t) =>
      CategoryNodesCollected(t.fields);
      var cs := CategoryNodes(t.fields);
      if cs != [] {
        var n := Node("Technical Skills", cs);
        PreorderAllOne(n);
        NodePreorder("Technical Skills", cs);
        SkillEntriesConcat([n], PreorderAll(cs));
        SkillEntriesOne(n);
      }
  }

  /** A bucket's branch gives its entries when its leaves are skills, nothing otherwise. */
  lemma BucketCollected(skills: seq<(string, Json)>, b: Bucket)
    requires IterableWhenTruthy(Get(skills, b.key, Null))
    ensures SkillEntries(PreorderAll(BucketBranch(skills, b)))
            == if b.kind == "skill" then EntriesOf(Get(skills, b.key, Null)) else []
    ensures WalkableAll(BucketBranch(skills, b))
  {
    var v := Get(skills, b.key, Null);
    if Truthy(v) {
      var n := Node(b.title, Leaves(Iterate(v).value, b.kind));
      PreorderAllOne(n);
      NodeCollected(b.title, Iterate(v).value, b.kind);
    }
  }

  lemma BranchCollected(skills: seq<(string, Json)>, i: nat)
    requires TechnicalOk(skills) && BucketsOk(skills)
    requires i < |BranchTitles|
    ensures SkillEntries(PreorderAll(BranchAt(skills, i))) == BranchSkills(skills, i)
    ensures WalkableAll(BranchAt(skills, i))
  {
    if i == 0 {
      TechnicalCollected(skills);
    } else {
      BucketCollected(skills, Buckets[i - 1]);
    }
  }

  /** What the branches with index below `n` contribute, in order. */
  function SkillsUpTo(skills: seq<(string, Json)>, n: nat): seq<Json>
    requires TechnicalOk(skills) && BucketsOk(skills)
    requires n <= |BranchTitles|
  {
    if n == 0 then [] else SkillsUpTo(skills, n - 1) + BranchSkills(skills, n - 1)
  }

  lemma {:induction false} BranchesCollected(skills: seq<(string, Json)>, n: nat)
    requires TechnicalOk(skills) && BucketsOk(skills)
    requires n <= |BranchTitles|
    ensures SkillEntries(PreorderAll(BranchesUpTo(skills, n))) == SkillsUpTo(skills, n)
  {
    if n > 0 {
      BranchesCollected(skills, n - 1);
      BranchesStep(skills, n);
    }
  }

  /** The branch with index `n - 1` adds its contribution after those before it. */
  lemma BranchesStep(skills: seq<(string, Json)>, n: nat)
    requires TechnicalOk(skills) && BucketsOk(skills)
    requires 0 < n <= |BranchTitles|
    requires SkillEntries(PreorderAll(BranchesUpTo(skills, n - 1))) == SkillsUpTo(skills, n - 1)
    ensures SkillEntries(PreorderAll(BranchesUpTo(skills, n))) == SkillsUpTo(skills, n)
  {
    var before, here := BranchesUpTo(skills, n - 1), BranchAt(skills, n - 1);
    assert BranchesUpTo(skills, n) == before + here;
    PreorderAllConcat(before, here);
    SkillEntriesConcat(PreorderAll(before), PreorderAll(here));
    BranchCollected(skills, n - 1);
    calc {
      SkillEntries(PreorderAll(BranchesUpTo(skills, n)));
      SkillEntries(PreorderAll(before) + PreorderAll(here));
      SkillsUpTo(skills, n - 1) + BranchSkills(skills, n - 1);
    }
  }

  lemma {:induction false} BranchesWalkable(skills: seq<(string, Json)>, n: nat)
    requires TechnicalOk(skills) && BucketsOk(skills)
    requires n <= |BranchTitles|
    ensures WalkableAll(BranchesUpTo(skills, n))
  {
    if n > 0 {
      var before, here := BranchesUpTo(skills, n - 1), BranchAt(skills, n - 1);
      assert BranchesUpTo(skills, n) == before + here;
      BranchesWalkable(skills, n - 1);
      BranchCollected(skills, n - 1);
      WalkableAllConcat(before, here);
    }
  }

  /** Only the first three branches can hold `skill` leaves. */
  lemma SkillsOfAllBranches(data: Json)
    requires WellShaped(data)
    ensures SkillsUpTo(SkillsOf(data), |BranchTitles|) == RecordSkills(data)
  {
    var skills := SkillsOf(data);
    assert SkillsUpTo(skills, 1) == BranchSkills(skills, 0);
    assert SkillsUpTo(skills, 2) == SkillsUpTo(skills, 1) + BranchSkills(skills, 1);
    assert SkillsUpTo(skills, 3) == RecordSkills(data);
    assert SkillsUpTo(skills, 4) == SkillsUpTo(skills, 3);
    assert SkillsUpTo(skills, 5) == SkillsUpTo(skills, 4);
  }

  /**
   * The collector run on a built tree never raises, and finds the technical entries in
   * category order, then the soft skills, then the domains; certification, qualification
   * and requirement leaves never appear.
   */
  lemma CollectedFromBuiltTree(data: Json)
    requires WellShaped(data)
    ensures Walkable(SkillTree(data))
    ensures SkillEntries(Preorder(SkillTree(data))) == RecordSkills(data)
  {
    var skills := SkillsOf(data);
    var branches := Branches(skills);
    BranchesCollected(skills, |BranchTitles|);
    BranchesWalkable(skills, |BranchTitles|);
    SkillsOfAllBranches(data);
    NodePreorder("Skills", branches);
    SkillEntriesConcat([Node("Skills", branches)], PreorderAll(branches));
    SkillEntriesOne(Node("Skills", branches));
  }

  /** With a truthy id, the converter's skills string for a built tree lists the first 20 of those names. */
  lemma SkillsStringOfBuiltTree(jobId: Json, data: Json)
    requires WellShaped(data) && Truthy(jobId)
    ensures var names := Take20(RecordSkills(data));
            SkillsFromTree(jobId, Some(SkillTree(data))) == if AllStr(names) then Join(Texts(names), ", ") else ""
  {
    CollectedFromBuiltTree(data);
  }

  // ---------------------------------------------------------------------------
  // File names from the generator, read by the backfill
  // ---------------------------------------------------------------------------

  /**
   * A tree the generator saved for a job with a non-negative integer id is picked up by
   * the backfill, which reads the same id back out of the file name.
   */
  lemma TreeFileNameRoundTrip(n: nat, safeTitle: string)
    ensures UrlBackfill.IsTreeFile(JobSkillTree.TreeFileName(Int(n), safeTitle))
    ensures UrlBackfill.ExtractJobId(JobSkillTree.TreeFileName(Int(n), safeTitle)) == Some(n)
  {
    var name := JobSkillTree.TreeFileName(Int(n), safeTitle);
    assert name == "job_" + NatToString(n) + "_" + (safeTitle + "_skill_tree.json");
    UrlBackfill.ExtractJobIdOfName(n, safeTitle + "_skill_tree.json");
  }
}
