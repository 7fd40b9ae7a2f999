// The skill views of the TechStack components: proficiency bands, grouping
// the top skills by category, and (in the second template) the category
// order and the category selection.
module TechStack {
  import opened Text
  import Seqs
  import Json

  /** A top skill; proficiency is a percentage, an integer here. */
  datatype Skill = Skill(name: string, category: string, proficiency: int)

  // ---------------------------------------------------------------------
  // Proficiency bands
  // ---------------------------------------------------------------------

  /** The colour band: 3 from 80, 2 from 60, 1 from 40, 0 below. */
  function ColorBand(proficiency: int): (band: nat)
    ensures band <= 3
    ensures band == 3 <==> proficiency >= 80
    ensures band >= 2 <==> proficiency >= 60
    ensures band >= 1 <==> proficiency >= 40
  {
    if proficiency >= 80 then 3 else if proficiency >= 60 then 2 else if proficiency >= 40 then 1 else 0
  }

  const ColorClasses: seq<string> := ["from-gray-400 to-gray-600", "from-yellow-400 to-yellow-600",
                                      "from-blue-400 to-blue-600", "from-green-400 to-green-600"]

  /** getProficiencyColor: one of the four classes, green exactly from 80 and gray exactly below 40. */
  function ProficiencyColor(proficiency: int): (c: string)
    ensures c in ColorClasses
    ensures c == "from-green-400 to-green-600" <==> proficiency >= 80
    ensures c == "from-gray-400 to-gray-600" <==> proficiency < 40
  {
    ColorClasses[ColorBand(proficiency)]
  }

  /** The label band: 4 from 85, 3 from 70, 2 from 50, 1 from 30, 0 below. */
  function LabelBand(proficiency: int): (band: nat)
    ensures band <= 4
    ensures band == 4 <==> proficiency >= 85
    ensures band >= 3 <==> proficiency >= 70
    ensures band >= 2 <==> proficiency >= 50
    ensures band >= 1 <==> proficiency >= 30
  {
    if proficiency >= 85 then 4 else if proficiency >= 70 then 3 else if proficiency >= 50 then 2
    else if proficiency >= 30 then 1 else 0
  }

  const Labels: seq<string> := ["Novice", "Beginner", "Intermediate", "Advanced", "Expert"]

  /** getProficiencyLabel: one of the five labels, "Expert" exactly from 85 and "Novice" exactly below 30. */
  function ProficiencyLabel(proficiency: int): (l: string)
    ensures l in Labels
    ensures l == "Expert" <==> proficiency >= 85
    ensures l == "Novice" <==> proficiency < 30
  {
    Labels[LabelBand(proficiency)]
  }

  /** A higher proficiency never gets a lower colour or label; the five labels and four colours are distinct. */
  lemma BandsMonotone(a: int, b: int)
    requires a <= b
    ensures ColorBand(a) <= ColorBand(b) && LabelBand(a) <= LabelBand(b)
  {
  }

  lemma BandNamesDistinct()
    ensures Seqs.NoDuplicates(ColorClasses) && Seqs.NoDuplicates(Labels)
  {
  }

  /** An "Expert" skill is drawn green, and a green one is at least "Advanced". */
  lemma ExpertIsGreen(proficiency: int)
    ensures ProficiencyLabel(proficiency) == "Expert" ==> ProficiencyColor(proficiency) == "from-green-400 to-green-600"
    ensures ProficiencyColor(proficiency) == "from-green-400 to-green-600" ==> LabelBand(proficiency) >= 3
  {
    BandNamesDistinct();
    if ProficiencyLabel(proficiency) == "Expert" {
      assert Labels[LabelBand(proficiency)] == Labels[4];
    }
    if ProficiencyColor(proficiency) == "from-green-400 to-green-600" {
      assert ColorClasses[ColorBand(proficiency)] == ColorClasses[3];
    }
  }

  // ---------------------------------------------------------------------
  // Grouping by category
  // ---------------------------------------------------------------------

  /** A Record<string, Skill[]> as its entries in key insertion order. */
  type Groups = seq<(string, seq<Skill>)>

  function GroupKeys(g: Groups): (ks: seq<string>)
    ensures |ks| == |g| && forall i :: 0 <= i < |g| ==> ks[i] == g[i].0
  {
    if g == [] then [] else [g[0].0] + GroupKeys(g[1..])
  }

  /** `groups[category] || []`. */
  function Bucket(g: Groups, category: string): seq<Skill>
  {
    if g == [] then [] else if g[0].0 == category then g[0].1 else Bucket(g[1..], category)
  }

  function TotalSize(g: Groups): nat
  {
    if g == [] then 0 else |g[0].1| + TotalSize(g[1..])
  }

  /** Pushing a skill onto its category's bucket, creating the bucket first when the category is new. */
  function Push(g: Groups, s: Skill): Groups
  {
    if g == [] then [(s.category, [s])]
    else if g[0].0 == s.category then [(g[0].0, g[0].1 + [s])] + g[1..]
    else [g[0]] + Push(g[1..], s)
  }

  lemma {:induction false} PushMeaning(g: Groups, s: Skill, c: string)
    ensures GroupKeys(Push(g, s)) == Seqs.SetInsert(GroupKeys(g), s.category)
    ensures Bucket(Push(g, s), c) == Bucket(g, c) + (if c == s.category then [s] else [])
    ensures TotalSize(Push(g, s)) == TotalSize(g) + 1
  {
    if g != [] && g[0].0 != s.category {
      PushMeaning(g[1..], s, c);
      assert GroupKeys(g) == [g[0].0] + GroupKeys(g[1..]);
    }
  }

  /**
   * One step of the forEach. The test `!skillsByCategory[skill.category]`
   * reads through to Object.prototype, so for a category named like one of
   * its properties ("constructor", "toString", "__proto__", ...) the read
   * is truthy, no bucket is created, and `.push` on the inherited value
   * throws a TypeError: None.
   */
  function AddSkill(g: Groups, s: Skill): Option<Groups>
  {
    if Json.Inherited(s.category) then None else Some(Push(g, s))
  }

  /**
   * A step throws exactly on an inherited category name; otherwise it adds
   * the skill's category as a key if it is new, pushes onto that bucket
   * only, and adds one skill.
   */
  lemma AddSkillMeaning(g: Groups, s: Skill, c: string)
    ensures AddSkill(g, s).None? <==> s.category in Json.ObjectPrototypeKeys
    ensures AddSkill(g, s).Some? ==>
      var r := AddSkill(g, s).value;
      GroupKeys(r) == Seqs.SetInsert(GroupKeys(g), s.category)
      && Bucket(r, c) == Bucket(g, c) + (if c == s.category then [s] else [])
      && TotalSize(r) == TotalSize(g) + 1
  {
    PushMeaning(g, s, c);
  }

  /** The record the forEach leaves behind, or None when one of its pushes throws. */
  function GroupByCategory(skills: seq<Skill>): Option<Groups>
  {
    if skills == [] then Some([])
    else match GroupByCategory(skills[..|skills| - 1])
      case None => None
      case Some(g) => AddSkill(g, skills[|skills| - 1])
  }

  /** Some skill has a category named like a property of Object.prototype. */
  predicate HasInheritedCategory(skills: seq<Skill>)
  {
    exists i :: 0 <= i < |skills| && Json.Inherited(skills[i].category)
  }

  /** The grouping throws exactly when some skill's category is an inherited property name. */
  lemma {:induction false} GroupingThrows(skills: seq<Skill>)
    ensures GroupByCategory(skills).None? <==> HasInheritedCategory(skills)
  {
    if skills != [] {
      var init, last := skills[..|skills| - 1], skills[|skills| - 1];
      GroupingThrows(init);
      if HasInheritedCategory(init) {
        var i :| 0 <= i < |init| && Json.Inherited(init[i].category);
        assert skills[i] == init[i];
      }
      if HasInheritedCategory(skills) && !Json.Inherited(last.category) {
        var i :| 0 <= i < |skills| && Json.Inherited(skills[i].category);
        assert init[i] == skills[i];
      }
    }
  }

  function CategoriesOf(skills: seq<Skill>): (cs: seq<string>)
    ensures |cs| == |skills| && forall i :: 0 <= i < |skills| ==> cs[i] == skills[i].category
  {
    if skills == [] then [] else CategoriesOf(skills[..|skills| - 1]) + [skills[|skills| - 1].category]
  }

  function SameCategory(category: string): Skill -> bool
  {
    (s: Skill) => s.category == category
  }

  function InCategory(skills: seq<Skill>, category: string): seq<Skill>
  {
    Seqs.Filter(skills, SameCategory(category))
  }

  /** When the grouping does not throw, the record's keys are the categories in the order first met. */
  lemma {:induction false} GroupKeysAreCategories(skills: seq<Skill>)
    ensures GroupByCategory(skills).Some? ==> GroupKeys(GroupByCategory(skills).value) == Seqs.Dedup(CategoriesOf(skills))
  {
    if skills != [] && GroupByCategory(skills).Some? {
      var init, last := skills[..|skills| - 1], skills[|skills| - 1];
      GroupKeysAreCategories(init);
      PushMeaning(GroupByCategory(init).value, last, "");
      assert CategoriesOf(skills)[..|skills| - 1] == CategoriesOf(init);
    }
  }

  /** When the grouping does not throw, each bucket holds exactly the skills of its category, in input order. */
  lemma {:induction false} BucketIsCategory(skills: seq<Skill>, c: string)
    ensures GroupByCategory(skills).Some? ==> Bucket(GroupByCategory(skills).value, c) == InCategory(skills, c)
  {
    if skills != [] && GroupByCategory(skills).Some? {
      var init, last := skills[..|skills| - 1], skills[|skills| - 1];
      BucketIsCategory(init, c);
      PushMeaning(GroupByCategory(init).value, last, c);
      assert skills == init + [last];
      Seqs.FilterAppend(init, [last], SameCategory(c));
      assert Seqs.Filter([last], SameCategory(c)) == if last.category == c then [last] else [];
    }
  }

  /** When the grouping does not throw, the bucket sizes add up to the number of skills. */
  lemma {:induction false} BucketSizesTotal(skills: seq<Skill>)
    ensures GroupByCategory(skills).Some? ==> TotalSize(GroupByCategory(skills).value) == |skills|
  {
    if skills != [] && GroupByCategory(skills).Some? {
      var init := skills[..|skills| - 1];
      BucketSizesTotal(init);
      PushMeaning(GroupByCategory(init).value, skills[|skills| - 1], "");
    }
  }

  /** The forEach over the skills, pushing each into its category's bucket; None where a push throws. */
  method GroupSkills(skills: seq<Skill>) returns (groups: Option<Groups>)
    ensures groups == GroupByCategory(skills)
  {
    var g: Groups := [];
    for i := 0 to |skills|
      invariant GroupByCategory(skills[..i]) == Some(g)
    {
      var skill := skills[i];
      if Json.Inherited(skill.category) {
        GroupingThrows(skills);
        return None;
      }
      assert skills[..i + 1][..i] == skills[..i];
      var k := 0;
      while k < |g| && g[k].0 != skill.category
        invariant k <= |g|
        invariant forall j :: 0 <= j < k ==> g[j].0 != skill.category
      {
        k := k + 1;
      }
      if k == |g| {
        PushNew(g, skill);
        ghost var before := g;
        g := g + [(skill.category, [])];
        assert g[k].1 + [skill] == [skill];
        assert g[k := (g[k].0, g[k].1 + [skill])] == before + [(skill.category, [skill])];
      } else {
        PushExisting(g, skill, k);
      }
      g := g[k := (g[k].0, g[k].1 + [skill])];
    }
    assert skills[..|skills|] == skills;
    groups := Some(g);
  }

  lemma {:induction false} PushNew(g: Groups, s: Skill)
    requires forall j :: 0 <= j < |g| ==> g[j].0 != s.category
    ensures Push(g, s) == g + [(s.category, [s])]
  {
    if g != [] {
      PushNew(g[1..], s);
      assert g == [g[0]] + g[1..];
    }
  }

  lemma {:induction false} PushExisting(g: Groups, s: Skill, k: nat)
    requires k < |g| && g[k].0 == s.category
    requires forall j :: 0 <= j < k ==> g[j].0 != s.category
    ensures Push(g, s) == g[k := (g[k].0, g[k].1 + [s])]
  {
    if k > 0 {
      var tail := g[1..];
      PushExisting(tail, s, k - 1);
      var updated := g[k := (g[k].0, g[k].1 + [s])];
      assert updated == [g[0]] + tail[k - 1 := (tail[k - 1].0, tail[k - 1].1 + [s])];
    }
  }

  // ---------------------------------------------------------------------
  // The second template: category order and selection
  // ---------------------------------------------------------------------

  /** The ranked categories, most important first. */
  const RankedCategories: seq<string> := ["Backend", "Frontend", "Mobile", "Systems", "Cloud", "Architecture", "AI", "Data/AI"]

  /**
   * `categoryPriority[c] || 99`: a ranked category's priority is its
   * 1-based position in RankedCategories, and any other category ranks 99.
   * (An inherited property name would read a function here, but the
   * grouping has already thrown on those.)
   */
  function CategoryPriority(category: string): (p: int)
    ensures p == 99 <==> category !in RankedCategories
    ensures p != 99 ==> 1 <= p <= |RankedCategories| && RankedCategories[p - 1] == category
  {
    if category == "Backend" then 1
    else if category == "Frontend" then 2
    else if category == "Mobile" then 3
    else if category == "Systems" then 4
    else if category == "Cloud" then 5
    else if category == "Architecture" then 6
    else if category == "AI" then 7
    else if category == "Data/AI" then 8
    else 99
  }

  function PriorityKey(): string -> (int, int)
  {
    (c: string) => (CategoryPriority(c), 0)
  }

  /** sortedCategories: the record's keys under the stable priority sort. */
  function SortedCategories(g: Groups): seq<string>
  {
    Seqs.SortByKey(GroupKeys(g), PriorityKey())
  }

  /**
   * The sorted categories are the record's keys rearranged, by increasing
   * priority, categories with the same priority (all unknown ones, say)
   * staying in first-seen order.
   */
  lemma SortedCategoriesMeaning(g: Groups)
    ensures var keys := GroupKeys(g);
      var sorted := SortedCategories(g);
      multiset(sorted) == multiset(keys)
      && (forall i, j :: 0 <= i < j < |sorted| ==> CategoryPriority(sorted[i]) <= CategoryPriority(sorted[j]))
      && (forall p :: Seqs.WithKey(sorted, PriorityKey(), (p, 0)) == Seqs.WithKey(keys, PriorityKey(), (p, 0)))
  {
    var keys := GroupKeys(g);
    Seqs.SortByKeyProperties(keys, PriorityKey());
    var sorted := SortedCategories(g);
    forall i, j | 0 <= i < j < |sorted| ensures CategoryPriority(sorted[i]) <= CategoryPriority(sorted[j]) {
      assert !Seqs.KeyLess(PriorityKey()(sorted[j]), PriorityKey()(sorted[i]));
    }
  }

  /** Clicking a category button: the selected one is cleared, any other is selected. */
  function SelectCategory(current: Option<string>, category: string): (r: Option<string>)
    ensures r.None? <==> current == Some(category)
    ensures r.Some? ==> r.value == category
  {
    if current == Some(category) then None else Some(category)
  }

  /** Clicking the same button twice returns to the selection before when it was that category, and otherwise clears it. */
  lemma SelectCategoryTwice(current: Option<string>, category: string)
    ensures SelectCategory(SelectCategory(current, category), category) == if current == Some(category) then current else None
  {
  }

  /** The empty-state message: no top skills and no tech stack entries. */
  predicate HasNoData(topSkills: seq<Skill>, techStack: nat)
  {
    |topSkills| == 0 && techStack == 0
  }

  /** When the grouping does not throw, the empty-state message is avoided exactly when there is a category button or a tech stack entry. */
  lemma SomethingToShow(topSkills: seq<Skill>, techStack: nat)
    ensures GroupByCategory(topSkills).Some? ==>
      (!HasNoData(topSkills, techStack) <==> GroupKeys(GroupByCategory(topSkills).value) != [] || techStack > 0)
  {
    GroupKeysAreCategories(topSkills);
    if topSkills != [] {
      Seqs.DedupProperties(CategoriesOf(topSkills));
      assert CategoriesOf(topSkills)[0] in Seqs.Dedup(CategoriesOf(topSkills));
    }
  }
}
