/**
 * `build_skill_tree` (skill_tree_common.py): turns the categorised skill record returned
 * by the analyser into the rooted, ordered tree of dict nodes that is saved, rendered
 * and later walked by the converter.
 *
 * The record is a JSON value; `WellShaped` is exactly the set of records on which the
 * Python code does not raise. Nodes are dicts: categories are `{"name", "children"}`,
 * leaves are `{"name", "type"}`.
 */
module SkillTreeBuild {
  import opened Wrappers
  import opened PyText
  import opened JsonValue

  /** One of the five list-valued buckets, its branch title and the type of its leaves. */
  datatype Bucket = Bucket(key: string, title: string, kind: string)

  /** The five buckets after "technical", in the order their branches are appended. */
  const Buckets: seq<Bucket> := [
    Bucket("soft_skills", "Soft Skills", "skill"),
    Bucket("domains", "Domain Expertise", "skill"),
    Bucket("certifications", "Certifications", "certification"),
    Bucket("education", "Education & Qualifications", "qualification"),
    Bucket("experience_requirements", "Experience Requirements", "requirement")
  ]

  /** Every possible depth-1 branch title, in the fixed output order. */
  const BranchTitles: seq<string> := [
    "Technical Skills", "Soft Skills", "Domain Expertise", "Certifications",
    "Education & Qualifications", "Experience Requirements"
  ]

  /** A category node `{"name": name, "children": children}`. */
  function Node(name: string, children: seq<Json>): Json {
    Obj([("name", Str(name)), ("children", Arr(children))])
  }

  /** A leaf node `{"name": entry, "type": kind}`. */
  function Leaf(entry: Json, kind: string): Json {
    Obj([("name", entry), ("type", Str(kind))])
  }

  /** One leaf of the given kind per entry, in order. */
  function Leaves(entries: seq<Json>, kind: string): (r: seq<Json>)
    ensures |r| == |entries|
  {
    seq(|entries|, i requires 0 <= i < |entries| => Leaf(entries[i], kind))
  }

  /** The category key with underscores as spaces, title-cased. */
  function CategoryTitle(key: string): string {
    Title(ReplaceChar(key, '_', ' '))
  }

  /** The record's "skills" dict, empty when the key is missing. */
  function SkillsOf(data: Json): seq<(string, Json)>
    requires data.Obj?
  {
    match Lookup(data.fields, "skills")
    case Some(Obj(f)) => f
    case _ => []
  }

  /** Iterating the value when it is truthy does not raise. */
  predicate IterableWhenTruthy(v: Json) {
    Truthy(v) ==> Iterate(v).Some?
  }

  predicate CategoriesIterable(cats: seq<(string, Json)>) {
    forall i :: 0 <= i < |cats| ==> IterableWhenTruthy(cats[i].1)
  }

  /** The "technical" entry of the skills dict is absent, or a dict of iterable categories. */
  predicate TechnicalOk(skills: seq<(string, Json)>) {
    match Lookup(skills, "technical")
    case None => true
    case Some(t) => t.Obj? && CategoriesIterable(t.fields)
  }

  predicate BucketsOk(skills: seq<(string, Json)>) {
    forall b :: 0 <= b < |Buckets| ==> IterableWhenTruthy(Get(skills, Buckets[b].key, Null))
  }

  /**
   * The records on which `build_skill_tree` does not raise: a dict whose "skills" entry,
   * if present, is a dict (`.get` is called on it), whose "technical" entry, if present,
   * is a dict (`.items()` is called on it), and whose truthy lists are iterable.
   */
  predicate WellShaped(data: Json) {
    && data.Obj?
    && (match Lookup(data.fields, "skills") case None => true case Some(s) => s.Obj?)
    && TechnicalOk(SkillsOf(data))
    && BucketsOk(SkillsOf(data))
  }

  /** The category nodes under "Technical Skills": one per truthy category, in dict order. */
  function CategoryNodes(cats: seq<(string, Json)>): seq<Json>
    requires CategoriesIterable(cats)
  {
    if cats == [] then []
    else
      var last := cats[|cats| - 1];
      CategoryNodes(cats[..|cats| - 1])
      + (if Truthy(last.1) then [Node(CategoryTitle(last.0), Leaves(Iterate(last.1).value, "skill"))] else [])
  }

  /** The "Technical Skills" branch, when at least one category survives. */
  function TechnicalBranch(skills: seq<(string, Json)>): seq<Json>
    requires TechnicalOk(skills)
  {
    match Lookup(skills, "technical")
    case None => []
    case Some(t) =>
      var cs := CategoryNodes(t.fields);
      if cs == [] then [] else [Node("Technical Skills", cs)]
  }

  /** The branch of one list-valued bucket, when that bucket is truthy. */
  function BucketBranch(skills: seq<(string, Json)>, b: Bucket): seq<Json>
    requires IterableWhenTruthy(Get(skills, b.key, Null))
  {
    var v := Get(skills, b.key, Null);
    if Truthy(v) then [Node(b.title, Leaves(Iterate(v).value, b.kind))] else []
  }

  /** The branch (none or one) with index `i` in `BranchTitles`. */
  function BranchAt(skills: seq<(string, Json)>, i: nat): seq<Json>
    requires TechnicalOk(skills) && BucketsOk(skills)
    requires i < |BranchTitles|
  {
    if i == 0 then TechnicalBranch(skills) else BucketBranch(skills, Buckets[i - 1])
  }

  /** The branches with index below `n`, in output order. */
  function BranchesUpTo(skills: seq<(string, Json)>, n: nat): seq<Json>
    requires TechnicalOk(skills) && BucketsOk(skills)
    requires n <= |BranchTitles|
  {
    if n == 0 then [] else BranchesUpTo(skills, n - 1) + BranchAt(skills, n - 1)
  }

  /** The depth-1 branches of the tree, in output order. */
  function Branches(skills: seq<(string, Json)>): seq<Json>
    requires TechnicalOk(skills) && BucketsOk(skills)
  {
    BranchesUpTo(skills, |BranchTitles|)
  }

  /** The tree `build_skill_tree` returns for a well-shaped record. */
  function SkillTree(data: Json): Json
    requires WellShaped(data)
  {
    Node("Skills", Branches(SkillsOf(data)))
  }

  /** `build_skill_tree`, appending category nodes and branches as the source does. */
  method BuildSkillTree(data: Json) returns (tree: Json)
    requires WellShaped(data)
    ensures tree == SkillTree(data)
  {
    var skills := SkillsOf(data);
    var children: seq<Json> := [];
    var tech := Lookup(skills, "technical");
    if tech.Some? {
      var cats := tech.value.fields;
      var techChildren: seq<Json> := [];
      var i := 0;
      while i < |cats|
        invariant 0 <= i <= |cats|
        invariant techChildren == CategoryNodes(cats[..i])
      {
        var (category, entries) := cats[i];
        if Truthy(entries) {
          techChildren := techChildren + [Node(CategoryTitle(category), Leaves(Iterate(entries).value, "skill"))];
        }
        assert cats[..i + 1][..i] == cats[..i];
        i := i + 1;
      }
      assert cats[..|cats|] == cats;
      assert TechnicalBranch(skills) == if techChildren == [] then [] else [Node("Technical Skills", techChildren)];
      if techChildren != [] {
        children := children + [Node("Technical Skills", techChildren)];
      }
    }
    assert children == BranchesUpTo(skills, 1);
    children := AddBucketBranch(children, skills, Buckets[0]);
    assert children == BranchesUpTo(skills, 2);
    children := AddBucketBranch(children, skills, Buckets[1]);
    assert children == BranchesUpTo(skills, 3);
    children := AddBucketBranch(children, skills, Buckets[2]);
    assert children == BranchesUpTo(skills, 4);
    children := AddBucketBranch(children, skills, Buckets[3]);
    assert children == BranchesUpTo(skills, 5);
    children := AddBucketBranch(children, skills, Buckets[4]);
    assert children == BranchesUpTo(skills, 6);
    tree := Node("Skills", children);
  }

  /** One of the five blocks that append a branch when its bucket is truthy. */
  method AddBucketBranch(children: seq<Json>, skills: seq<(string, Json)>, b: Bucket) returns (r: seq<Json>)
    requires IterableWhenTruthy(Get(skills, b.key, Null))
    ensures r == children + BucketBranch(skills, b)
  {
    r := children;
    var v := Get(skills, b.key, Null);
    if Truthy(v) {
      var node := Node(b.title, Leaves(Iterate(v).value, b.kind));
      r := r + [node];
    }
  }

  // ---------------------------------------------------------------------------
  // Properties of the built tree
  // ---------------------------------------------------------------------------

  /** The "name" of a node (`None` for anything that is not a dict with a name). */
  function NameOf(node: Json): Json {
    if node.Obj? then Get(node.fields, "name", Null) else Null
  }

  function Names(nodes: seq<Json>): (r: seq<Json>)
    ensures |r| == |nodes|
  {
    seq(|nodes|, i requires 0 <= i < |nodes| => NameOf(nodes[i]))
  }

  lemma NamesConcat(a: seq<Json>, b: seq<Json>)
    ensures Names(a + b) == Names(a) + Names(b)
  {
  }

  /** The root is `{"name": "Skills", "children": [...]}`: two keys, no "type". */
  lemma RootShape(data: Json)
    requires WellShaped(data)
    ensures SkillTree(data).Obj?
    ensures Keys(SkillTree(data).fields) == ["name", "children"]
    ensures Lookup(SkillTree(data).fields, "name") == Some(Str("Skills"))
    ensures Lookup(SkillTree(data).fields, "type") == None
  {
    var f := SkillTree(data).fields;
    assert f[1..][1..] == [];
  }

  /** Without a "skills" entry, or with an empty one, the root has no children. */
  lemma {:induction false} EmptyRecordEmptyTree(data: Json)
    requires WellShaped(data)
    requires SkillsOf(data) == []
    ensures SkillTree(data) == Node("Skills", [])
  {
    var s := SkillsOf(data);
    forall i | 0 <= i < |BranchTitles|
      ensures BranchAt(s, i) == []
    {
      if i > 0 {
        assert Get(s, Buckets[i - 1].key, Null) == Null;
      }
    }
    EmptyBranchesUpTo(s, |BranchTitles|);
  }

  lemma {:induction false} EmptyBranchesUpTo(s: seq<(string, Json)>, n: nat)
    requires TechnicalOk(s) && BucketsOk(s)
    requires n <= |BranchTitles|
    requires forall i | 0 <= i < |BranchTitles| :: BranchAt(s, i) == []
    ensures BranchesUpTo(s, n) == []
  {
    if n > 0 {
      EmptyBranchesUpTo(s, n - 1);
    }
  }

  /** Some category of the technical dict has a truthy list. */
  predicate HasTruthyCategory(cats: seq<(string, Json)>) {
    exists i :: 0 <= i < |cats| && Truthy(cats[i].1)
  }

  /** Whether the depth-1 branch with index `i` in `BranchTitles` is built. */
  predicate BranchPresent(skills: seq<(string, Json)>, i: nat)
    requires i < |BranchTitles|
  {
    if i == 0 then
      (match Lookup(skills, "technical") case None => false case Some(t) => t.Obj? && HasTruthyCategory(t.fields))
    else Truthy(Get(skills, Buckets[i - 1].key, Null))
  }

  /** The titles of the first `n` possible branches that are present, in order. */
  function PresentTitles(skills: seq<(string, Json)>, n: nat): seq<Json>
    requires n <= |BranchTitles|
  {
    if n == 0 then []
    else PresentTitles(skills, n - 1) + (if BranchPresent(skills, n - 1) then [Str(BranchTitles[n - 1])] else [])
  }

  /** Category nodes appear exactly for the truthy categories. */
  lemma {:induction false} CategoryNodesEmpty(cats: seq<(string, Json)>)
    requires CategoriesIterable(cats)
    ensures CategoryNodes(cats) == [] <==> !HasTruthyCategory(cats)
  {
    if cats != [] {
      var init := cats[..|cats| - 1];
      CategoryNodesEmpty(init);
      if HasTruthyCategory(init) {
        var i :| 0 <= i < |init| && Truthy(init[i].1);
        assert cats[i] == init[i];
      }
      if HasTruthyCategory(cats) && !Truthy(cats[|cats| - 1].1) {
        var i :| 0 <= i < |cats| && Truthy(cats[i].1);
        assert init[i] == cats[i];
      }
    }
  }

  /** Each branch slot holds its fixed title exactly when that branch is present. */
  lemma BranchAtNames(s: seq<(string, Json)>, i: nat)
    requires TechnicalOk(s) && BucketsOk(s)
    requires i < |BranchTitles|
    ensures Names(BranchAt(s, i)) == if BranchPresent(s, i) then [Str(BranchTitles[i])] else []
  {
    if i == 0 {
      var tech := Lookup(s, "technical");
      if tech.Some? {
        CategoryNodesEmpty(tech.value.fields);
      }
    } else {
      assert IterableWhenTruthy(Get(s, Buckets[i - 1].key, Null));
    }
  }

  lemma {:induction false} BranchesUpToNames(s: seq<(string, Json)>, n: nat)
    requires TechnicalOk(s) && BucketsOk(s)
    requires n <= |BranchTitles|
    ensures Names(BranchesUpTo(s, n)) == PresentTitles(s, n)
  {
    if n > 0 {
      BranchesUpToNames(s, n - 1);
      BranchAtNames(s, n - 1);
      NamesConcat(BranchesUpTo(s, n - 1), BranchAt(s, n - 1));
    }
  }

  /**
   * The depth-1 branches carry the fixed titles, in the fixed order, each one present
   * exactly when its source is non-empty.
   */
  lemma BranchOrder(data: Json)
    requires WellShaped(data)
    ensures Names(Branches(SkillsOf(data))) == PresentTitles(SkillsOf(data), |BranchTitles|)
  {
    BranchesUpToNames(SkillsOf(data), |BranchTitles|);
  }

  /** The titles of the truthy categories, in dict order. */
  function TruthyCategoryTitles(cats: seq<(string, Json)>): seq<Json> {
    if cats == [] then []
    else
      var last := cats[|cats| - 1];
      TruthyCategoryTitles(cats[..|cats| - 1]) + (if Truthy(last.1) then [Str(CategoryTitle(last.0))] else [])
  }

  /**
   * Under "Technical Skills" there is one node per category with a non-empty list,
   * named by the title-cased key (its leaves: `CategoryNodeLeaves`).
   */
  lemma {:induction false} CategoryNodeNames(cats: seq<(string, Json)>)
    requires CategoriesIterable(cats)
    ensures Names(CategoryNodes(cats)) == TruthyCategoryTitles(cats)
  {
    if cats != [] {
      var init := cats[..|cats| - 1];
      CategoryNodeNames(init);
      var last := cats[|cats| - 1];
      var tail := if Truthy(last.1) then [Node(CategoryTitle(last.0), Leaves(Iterate(last.1).value, "skill"))] else [];
      NamesConcat(CategoryNodes(init), tail);
      if Truthy(last.1) {
        assert Names(tail) == [Str(CategoryTitle(last.0))];
      }
    }
  }
  /** A truthy category gives a node holding one `skill` leaf per entry, in order. */
  lemma {:induction false} CategoryNodeLeaves(cats: seq<(string, Json)>, j: nat)
    requires CategoriesIterable(cats)
    requires j < |cats| && Truthy(cats[j].1)
    ensures Iterate(cats[j].1).Some?
    ensures Node(CategoryTitle(cats[j].0), Leaves(Iterate(cats[j].1).value, "skill")) in CategoryNodes(cats)
  {
    assert IterableWhenTruthy(cats[j].1);
    var init := cats[..|cats| - 1];
    if j < |cats| - 1 {
      assert init[j] == cats[j];
      assert CategoriesIterable(init) by {
        forall i | 0 <= i < |init| ensures IterableWhenTruthy(init[i].1) {
          assert init[i] == cats[i];
        }
      }
      CategoryNodeLeaves(init, j);
    }
  }


  /** The category key of skill_tree_common.py:36 on `programming_languages` gives `Programming Languages`. */
  lemma ProgrammingLanguagesTitle(key: string)
    requires key == "programming_languages"
    ensures CategoryTitle(key) == "Programming Languages"
  {
    ProgrammingLanguagesWords(key, "programming", "languages");
  }

  lemma ProgrammingLanguagesWords(key: string, first: string, second: string)
    requires key == "programming_languages" && first == "programming" && second == "languages"
    ensures CategoryTitle(key) == "Programming Languages"
  {
    ProgrammingLanguagesSpaced(key, first, second);
    TwoWordTitle(first, second);
    TitledWord(first, "Programming");
    TitledWord(second, "Languages");
  }

  /** Two lower-case words joined by a space are each capitalised. */
  lemma TwoWordTitle(first: string, second: string)
    requires first != [] && forall i :: 0 <= i < |first| ==> IsLower(first[i])
    requires second != [] && forall i :: 0 <= i < |second| ==> IsLower(second[i])
    ensures Title(first + " " + second) == TitleFrom(first, false) + " " + TitleFrom(second, false)
  {
    assert first + " " + second == first + (" " + second);
    TitleFromConcat(first, " " + second, false);
    TitleFromConcat(" ", second, true);
  }

  /** Each word of the key, lower-case throughout, is capitalised on its own. */
  lemma TitledWord(w: string, t: string)
    requires (w == "programming" && t == "Programming") || (w == "languages" && t == "Languages")
    ensures TitleFrom(w, false) == t
  {
    TitleLowerWord(w);
  }

  lemma ProgrammingLanguagesSpaced(key: string, first: string, second: string)
    requires key == "programming_languages" && first == "programming" && second == "languages"
    ensures ReplaceChar(key, '_', ' ') == first + " " + second
  {
  }

  /** Title-casing a concatenation continues from the last character of the first part. */
  lemma {:induction false} TitleFromConcat(a: string, b: string, prevCased: bool)
    requires a != []
    ensures TitleFrom(a + b, prevCased) == TitleFrom(a, prevCased) + TitleFrom(b, IsCased(a[|a| - 1]))
  {
    assert (a + b)[1..] == a[1..] + b;
    if |a| > 1 {
      TitleFromConcat(a[1..], b, IsCased(a[0]));
    }
  }

  /** A lower-case word is capitalised at a word start and kept inside a word. */
  lemma {:induction false} TitleLowerWord(w: string)
    requires w != [] && forall i :: 0 <= i < |w| ==> IsLower(w[i])
    ensures TitleFrom(w, false) == [UpperChar(w[0])] + w[1..]
    ensures TitleFrom(w, true) == w
  {
    if |w| > 1 {
      TitleLowerWord(w[1..]);
    }
  }

  /** A category title has no underscore left, and title-casing it again changes nothing. */
  lemma CategoryTitleClean(key: string)
    ensures '_' !in CategoryTitle(key)
    ensures Title(CategoryTitle(key)) == CategoryTitle(key)
  {
    var spaced := ReplaceChar(key, '_', ' ');
    assert '_' !in spaced;
    TitleNoNewUnderscore(spaced, false);
    TitleFromIdempotent(spaced, false);
  }

  lemma {:induction false} TitleNoNewUnderscore(s: string, prevCased: bool)
    requires '_' !in s
    ensures '_' !in TitleFrom(s, prevCased)
  {
    if s != [] {
      TitleNoNewUnderscore(s[1..], IsCased(s[0]));
    }
  }

  /**
   * Each bucket's branch, when present, holds one leaf per entry in source order, typed
   * by the bucket (education entries become `qualification`, experience entries
   * `requirement`), and a leaf has no "children" key.
   */
  lemma BucketLeaves(skills: seq<(string, Json)>, b: Bucket, i: nat)
    requires IterableWhenTruthy(Get(skills, b.key, Null))
    requires Truthy(Get(skills, b.key, Null))
    requires i < |Iterate(Get(skills, b.key, Null)).value|
    ensures |BucketBranch(skills, b)| == 1
    ensures var branch := BucketBranch(skills, b)[0];
            var leaves := Get(branch.fields, "children", Null);
            && NameOf(branch) == Str(b.title)
            && leaves.Arr?
            && |leaves.items| == |Iterate(Get(skills, b.key, Null)).value|
            && leaves.items[i].Obj?
            && Keys(leaves.items[i].fields) == ["name", "type"]
            && Lookup(leaves.items[i].fields, "name") == Some(Iterate(Get(skills, b.key, Null)).value[i])
            && Lookup(leaves.items[i].fields, "type") == Some(Str(b.kind))
  {
    var entries := Iterate(Get(skills, b.key, Null)).value;
    var branch := Node(b.title, Leaves(entries, b.kind));
    assert BucketBranch(skills, b) == [branch];
    var rest := [("children", Arr(Leaves(entries, b.kind)))];
    assert branch.fields[1..] == rest;
    assert Lookup(rest, "children") == Some(Arr(Leaves(entries, b.kind)));
    assert Lookup(branch.fields, "children") == Lookup(rest, "children");
    assert Get(branch.fields, "children", Null) == Arr(Leaves(entries, b.kind));
    var leaf := Leaves(entries, b.kind)[i];
    assert leaf == Leaf(entries[i], b.kind);
    assert leaf.fields[1..][1..] == [];
  }

  /**
   * A truthy "education" bucket becomes one of the root's branches: "Education &
   * Qualifications", holding one `qualification` leaf per education entry, in order.
   */
  lemma EducationIsQualification(data: Json)
    requires WellShaped(data)
    requires Truthy(Get(SkillsOf(data), "education", Null))
    ensures var bs, v := Branches(SkillsOf(data)), Get(SkillsOf(data), "education", Null);
            && Get(SkillTree(data).fields, "children", Null) == Arr(bs)
            && Iterate(v).Some?
            && exists k | 0 <= k < |bs| :: bs[k] == Node("Education & Qualifications", Leaves(Iterate(v).value, "qualification"))
    ensures var entries := Iterate(Get(SkillsOf(data), "education", Null)).value;
            forall i | 0 <= i < |entries| ::
              && Lookup(Leaves(entries, "qualification")[i].fields, "name") == Some(entries[i])
              && Lookup(Leaves(entries, "qualification")[i].fields, "type") == Some(Str("qualification"))
  {
    var s := SkillsOf(data);
    var bs := Branches(s);
    var v := Get(s, "education", Null);
    assert Buckets[3].key == "education";
    assert IterableWhenTruthy(v);
    assert |BranchTitles| == 6;
    assert BranchesUpTo(s, 5) == BranchesUpTo(s, 4) + BranchAt(s, 4);
    assert bs == BranchesUpTo(s, 5) + BranchAt(s, 5);
    var node := Node("Education & Qualifications", Leaves(Iterate(v).value, "qualification"));
    assert BranchAt(s, 4) == [node];
    assert bs[|BranchesUpTo(s, 4)|] == node;
    var rest := [("children", Arr(bs))];
    assert SkillTree(data).fields[1..] == rest;
    assert Lookup(rest, "children") == Some(Arr(bs));
    assert Lookup(SkillTree(data).fields, "children") == Lookup(rest, "children");
  }
}
