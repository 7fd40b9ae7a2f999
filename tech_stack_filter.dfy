// The first template's TechStack section: programming languages are taken
// out of the top skills by substring, the rest are grouped by category,
// and each category panel shows its first three skills.
module TechStackFilter {
  import opened Text
  import Seqs
  import opened TechStack
  import Json

  /** The substrings that mark a skill name as a programming language. */
  const LanguageMarkers: seq<string> := ["javascript", "typescript", "python", "java", "c#", "c++", "ruby", "php", "go"]

  /** The lower-cased name contains some marker. */
  predicate IsLanguageName(name: string)
  {
    exists i :: 0 <= i < |LanguageMarkers| && Contains(ToLower(name), LanguageMarkers[i])
  }

  predicate KeepSkill(s: Skill)
  {
    !IsLanguageName(s.name)
  }

  /** filteredTopSkills. */
  function FilteredTopSkills(topSkills: seq<Skill>): (r: seq<Skill>)
    ensures Seqs.IsSubsequence(r, topSkills)
    ensures forall i :: 0 <= i < |r| ==> !IsLanguageName(r[i].name)
    ensures forall i :: 0 <= i < |topSkills| && !IsLanguageName(topSkills[i].name) ==> topSkills[i] in r
  {
    Seqs.Filter(topSkills, KeepSkill)
  }

  /** Example: the markers match anywhere in the name, so "Django" goes as a language because it contains "go". */
  lemma DjangoIsDropped()
    ensures IsLanguageName("Django")
  {
    assert ToLower("Django") == "django";
    var lower: string := "django";
    assert lower[4..6] == "go" by {
      assert lower[4] == 'g' && lower[5] == 'o';
    }
    assert OccursAt(lower, "go", 4);
    ContainsAt("django", "go", 4);
    assert LanguageMarkers[8] == "go";
  }

  /** Example: "MongoDB" goes too. */
  lemma MongoIsDropped()
    ensures IsLanguageName("MongoDB")
  {
    assert ToLower("MongoDB") == "mongodb";
    var lower: string := "mongodb";
    assert lower[3..5] == "go" by {
      assert lower[3] == 'g' && lower[4] == 'o';
    }
    assert OccursAt(lower, "go", 3);
    ContainsAt("mongodb", "go", 3);
    assert LanguageMarkers[8] == "go";
  }

  /** A name without the markers' first letters c, g, j, p, r and t in any case, like "Node", stays. */
  lemma NoMarkerLetterStays(name: string)
    requires forall k :: 0 <= k < |name| ==> LowerChar(name[k]) !in {'c', 'g', 'j', 'p', 'r', 't'}
    ensures !IsLanguageName(name)
  {
    var lower := ToLower(name);
    forall i | 0 <= i < |LanguageMarkers| ensures !Contains(lower, LanguageMarkers[i]) {
      var m := LanguageMarkers[i];
      assert m[0] in {'c', 'g', 'j', 'p', 'r', 't'};
      if Contains(lower, m) {
        ContainsFirstChar(lower, m);
      }
    }
  }

  /** The category panels: the grouping of the filtered skills, None when a push throws. */
  function PanelGroups(topSkills: seq<Skill>): Option<Groups>
  {
    GroupByCategory(FilteredTopSkills(topSkills))
  }

  /** The panels throw exactly when a skill that survives the language filter has an inherited category name. */
  lemma PanelsThrow(topSkills: seq<Skill>)
    ensures PanelGroups(topSkills).None? <==>
      exists i :: 0 <= i < |topSkills| && !IsLanguageName(topSkills[i].name) && Json.Inherited(topSkills[i].category)
  {
    var kept := FilteredTopSkills(topSkills);
    GroupingThrows(kept);
    if HasInheritedCategory(kept) {
      var j :| 0 <= j < |kept| && Json.Inherited(kept[j].category);
      assert kept[j] in topSkills;
      var i :| 0 <= i < |topSkills| && topSkills[i] == kept[j];
      assert !IsLanguageName(topSkills[i].name);
    }
    if exists i :: 0 <= i < |topSkills| && !IsLanguageName(topSkills[i].name) && Json.Inherited(topSkills[i].category) {
      var i :| 0 <= i < |topSkills| && !IsLanguageName(topSkills[i].name) && Json.Inherited(topSkills[i].category);
      assert topSkills[i] in kept;
      var j :| 0 <= j < |kept| && kept[j] == topSkills[i];
      assert Json.Inherited(kept[j].category);
    }
  }

  /** A panel lists the first three skills of its bucket; the modal lists all of them. */
  function PanelSkills(bucket: seq<Skill>): (shown: seq<Skill>)
    ensures |shown| <= 3 && |shown| <= |bucket| && shown == bucket[..|shown|]
    ensures |bucket| <= 3 ==> shown == bucket
  {
    Seqs.Take(bucket, 3)
  }

  /**
   * Every language-free skill appears in exactly its category's bucket, in
   * input order, and no language does; a panel shows min(3, n) of a
   * category's n skills.
   */
  lemma PanelMeaning(topSkills: seq<Skill>, category: string)
    ensures PanelGroups(topSkills).Some? ==>
      var bucket := Bucket(PanelGroups(topSkills).value, category);
      (forall i :: 0 <= i < |bucket| ==> bucket[i].category == category && !IsLanguageName(bucket[i].name))
      && (forall i :: 0 <= i < |topSkills| && topSkills[i].category == category && !IsLanguageName(topSkills[i].name)
            ==> topSkills[i] in bucket)
      && |PanelSkills(bucket)| == (if |bucket| < 3 then |bucket| else 3)
  {
    var kept := FilteredTopSkills(topSkills);
    BucketIsCategory(kept, category);
    if PanelGroups(topSkills).None? {
      return;
    }
    var bucket := Bucket(PanelGroups(topSkills).value, category);
    forall i | 0 <= i < |bucket| ensures bucket[i].category == category && !IsLanguageName(bucket[i].name) {
      assert SameCategory(category)(bucket[i]);
      assert bucket[i] in kept;
    }
    forall i | 0 <= i < |topSkills| && topSkills[i].category == category && !IsLanguageName(topSkills[i].name)
      ensures topSkills[i] in bucket
    {
      assert topSkills[i] in kept;
      var j :| 0 <= j < |kept| && kept[j] == topSkills[i];
      assert SameCategory(category)(kept[j]);
    }
  }

  /** The empty-state message here looks at the skills left after the filter. */
  lemma OnlyLanguagesMeansNoData(topSkills: seq<Skill>)
    requires forall i :: 0 <= i < |topSkills| ==> IsLanguageName(topSkills[i].name)
    ensures HasNoData(FilteredTopSkills(topSkills), 0)
  {
    var r := FilteredTopSkills(topSkills);
    if r != [] {
      assert r[0] in topSkills;
    }
  }
}
