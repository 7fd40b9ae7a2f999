// The normalisation the portfolio-data hook applies before components see
// the data: image URLs, skills given either as a list or as category ->
// names, experiences in either field naming, and project images.
module PortfolioData {
  import opened Text
  import opened Json
  import Seqs
  import GithubService

  // ---------------------------------------------------------------------
  // ensureAbsoluteUrl
  // ---------------------------------------------------------------------

  /**
   * ensureAbsoluteUrl: the default image for an absent or empty URL. Every
   * other branch (absolute, server asset, other relative) returns the URL
   * as it came.
   */
  function EnsureAbsoluteUrl(url: Option<string>): (r: string)
    ensures !GithubService.IsTruthy(url) ==> r == GithubService.DefaultProjectImage
    ensures GithubService.IsTruthy(url) ==> r == url.value
  {
    if !GithubService.IsTruthy(url) then GithubService.DefaultProjectImage
    else
      var u := url.value;
      if StartsWith(u, "http://") || StartsWith(u, "https://") then u
      else if StartsWith(u, "/assets/") || StartsWith(u, "/uploads/") then u
      else u
  }

  /** The result is never empty, and normalising it again changes nothing. */
  lemma EnsureAbsoluteUrlIdempotent(url: Option<string>)
    ensures EnsureAbsoluteUrl(url) != ""
    ensures EnsureAbsoluteUrl(Some(EnsureAbsoluteUrl(url))) == EnsureAbsoluteUrl(url)
  {
  }

  // ---------------------------------------------------------------------
  // processSkills
  // ---------------------------------------------------------------------

  /** Math.max(30, 100 - index * 5): the level given to the index-th name of a category. */
  function SkillLevel(index: nat): (level: int)
    ensures 30 <= level <= 100
    ensures index <= 14 ==> level == 100 - 5 * index
    ensures index >= 14 ==> level == 30
  {
    if 100 - index * 5 > 30 then 100 - index * 5 else 30
  }

  /** Later names in a category never get a higher level. */
  lemma SkillLevelNonIncreasing(i: nat, j: nat)
    requires i <= j
    ensures SkillLevel(j) <= SkillLevel(i)
  {
  }

  /** The skill object built for a name: `{name, category, level}`. */
  function SkillObject(name: Json, category: string, level: int): Json
  {
    JObj([("name", name), ("category", JStr(category)), ("level", JNum(level))])
  }

  /** The skills of one category, in the order of its names. */
  function CategorySkills(category: string, names: seq<Json>): (r: seq<Json>)
    ensures |r| == |names|
    ensures forall i :: 0 <= i < |names| ==> r[i] == SkillObject(names[i], category, SkillLevel(i))
  {
    seq(|names|, i requires 0 <= i < |names| => SkillObject(names[i], category, SkillLevel(i)))
  }

  /** The skills of the entries, entry after entry; entries whose value is not an array give none. */
  function EntrySkills(entries: seq<(string, Json)>): seq<Json>
  {
    if entries == [] then []
    else
      var last := entries[|entries| - 1];
      EntrySkills(entries[..|entries| - 1]) + (if last.1.JArr? then CategorySkills(last.0, last.1.items) else [])
  }

  /** processSkills: [] for a falsy value, an array as it is, and otherwise the skills of its entries. */
  function ProcessedSkills(skills: Json): seq<Json>
  {
    if !Truthy(skills) then []
    else if skills.JArr? then skills.items
    else EntrySkills(SpreadEntries(skills))
  }

  /** processSkills with its two forEach loops. */
  method ProcessSkills(skills: Json) returns (processed: seq<Json>)
    ensures processed == ProcessedSkills(skills)
  {
    if !Truthy(skills) {
      return [];
    }
    if skills.JArr? {
      return skills.items;
    }
    var entries := SpreadEntries(skills);
    processed := [];
    for e := 0 to |entries|
      invariant processed == EntrySkills(entries[..e])
    {
      assert entries[..e + 1][..e] == entries[..e];
      var (category, value) := entries[e];
      if value.JArr? {
        var names := value.items;
        ghost var before := processed;
        for i := 0 to |names|
          invariant processed == before + CategorySkills(category, names[..i])
        {
          assert CategorySkills(category, names[..i + 1]) == CategorySkills(category, names[..i]) + [SkillObject(names[i], category, SkillLevel(i))];
          processed := processed + [SkillObject(names[i], category, SkillLevel(i))];
        }
        assert names[..|names|] == names;
      }
    }
    assert entries[..|entries|] == entries;
  }

  /** A skill object as processSkills builds it: a string category and a level between 30 and 100. */
  predicate WellFormedSkill(j: Json)
  {
    j.JObj? && Keys(j.fields) == ["name", "category", "level"]
    && Get(j, "category").JStr? && Get(j, "level").JNum? && 30 <= Get(j, "level").n <= 100
  }

  function ArrayLengths(entries: seq<(string, Json)>): nat
  {
    if entries == [] then 0
    else
      var last := entries[|entries| - 1];
      ArrayLengths(entries[..|entries| - 1]) + (if last.1.JArr? then |last.1.items| else 0)
  }

  /**
   * From a category -> names object, processSkills makes one well-formed
   * skill per name of every array-valued category, and nothing else.
   */
  lemma {:induction false} EntrySkillsMeaning(entries: seq<(string, Json)>)
    ensures |EntrySkills(entries)| == ArrayLengths(entries)
    ensures forall i :: 0 <= i < |EntrySkills(entries)| ==> WellFormedSkill(EntrySkills(entries)[i])
  {
    if entries != [] {
      var init, last := entries[..|entries| - 1], entries[|entries| - 1];
      EntrySkillsMeaning(init);
      if last.1.JArr? {
        var added := CategorySkills(last.0, last.1.items);
        forall i | 0 <= i < |added| ensures WellFormedSkill(added[i]) {
          SkillObjectWellFormed(last.1.items[i], last.0, SkillLevel(i));
        }
        var r := EntrySkills(entries);
        assert r == EntrySkills(init) + added;
        forall i | 0 <= i < |r| ensures WellFormedSkill(r[i]) {
          if i >= |EntrySkills(init)| {
            assert r[i] == added[i - |EntrySkills(init)|];
          }
        }
      } else {
        assert EntrySkills(entries) == EntrySkills(init) + [];
      }
    }
  }

  lemma SkillObjectWellFormed(name: Json, category: string, level: int)
    requires 30 <= level <= 100
    ensures WellFormedSkill(SkillObject(name, category, level))
    ensures Get(SkillObject(name, category, level), "category") == JStr(category)
    ensures Get(SkillObject(name, category, level), "level") == JNum(level)
    ensures Get(SkillObject(name, category, level), "name") == name
  {
    var fields := [("name", name), ("category", JStr(category)), ("level", JNum(level))];
    assert Keys(fields) == ["name", "category", "level"];
  }

  /** A category given as a list of names: the i-th name gets level max(30, 100 - 5i), non-increasing. */
  lemma OneCategory(category: string, names: seq<Json>)
    ensures var r := ProcessedSkills(JObj([(category, JArr(names))]));
      |r| == |names|
      && (forall i :: 0 <= i < |r| ==>
            Get(r[i], "name") == names[i] && Get(r[i], "category") == JStr(category) && Get(r[i], "level") == JNum(SkillLevel(i)))
      && (forall i, j :: 0 <= i <= j < |r| ==> Get(r[j], "level").n <= Get(r[i], "level").n)
  {
    OneCategorySkills(category, names);
    var r := CategorySkills(category, names);
    forall i | 0 <= i < |r|
      ensures Get(r[i], "name") == names[i] && Get(r[i], "category") == JStr(category) && Get(r[i], "level") == JNum(SkillLevel(i))
    {
      SkillObjectWellFormed(names[i], category, SkillLevel(i));
    }
    forall i, j | 0 <= i <= j < |r| ensures Get(r[j], "level").n <= Get(r[i], "level").n {
      SkillLevelNonIncreasing(i, j);
    }
  }

  lemma OneCategorySkills(category: string, names: seq<Json>)
    ensures ProcessedSkills(JObj([(category, JArr(names))])) == CategorySkills(category, names)
  {
    var entries := [(category, JArr(names))];
    assert entries[..0] == [];
    assert EntrySkills(entries) == [] + CategorySkills(category, names);
  }

  // ---------------------------------------------------------------------
  // processExperiences
  // ---------------------------------------------------------------------

  /** The object processExperiences builds from the fields it reads. */
  function ExperienceObject(id: Json, company: Json, title: Json, role: Json, dates: Json, duration: Json,
                            description: Json, achievements: Json): Json
  {
    JObj([("id", id),
          ("company", Or(company, JStr(""))),
          ("role", Or(title, Or(role, JStr("")))),
          ("duration", Or(dates, Or(duration, JStr("")))),
          ("description", Or(description, JStr(""))),
          ("achievements", Or(achievements, JArr([]))) ])
  }

  /** The normalised experience built from `exp`; `freshId` stands for the random id. */
  function ProcessExperience(exp: Json, freshId: string): Json
  {
    ExperienceObject(Or(Get(exp, "id"), JStr(freshId)), Get(exp, "company"), Get(exp, "title"), Get(exp, "role"),
                     Get(exp, "dates"), Get(exp, "duration"), Get(exp, "description"), Get(exp, "achievements"))
  }

  /**
   * processExperiences on `portfolio?.experience || []`: a falsy value gives
   * []; an array is mapped element by element; None stands for the
   * TypeError of calling map on anything else or reading a field of null.
   */
  function ProcessExperiences(experiences: Json, freshId: nat -> string): (r: Option<seq<Json>>)
    ensures !Truthy(experiences) ==> r == Some([])
    ensures r.Some? <==> !Truthy(experiences) || (experiences.JArr? && forall i :: 0 <= i < |experiences.items| ==> experiences.items[i] != JNull && experiences.items[i] != JUndefined)
    ensures r.Some? && experiences.JArr? ==>
      |r.value| == |experiences.items|
      && forall i :: 0 <= i < |experiences.items| ==> r.value[i] == ProcessExperience(experiences.items[i], freshId(i))
  {
    if !Truthy(experiences) then Some([])
    else if !experiences.JArr? then None
    else
      var items := experiences.items;
      if exists i :: 0 <= i < |items| && (items[i] == JNull || items[i] == JUndefined) then None
      else Some(seq(|items|, i requires 0 <= i < |items| => ProcessExperience(items[i], freshId(i))))
  }

  /** The role is the title when there is one, then the role, then the empty string. */
  lemma ExperienceRole(id: Json, company: Json, title: Json, role: Json, dates: Json, duration: Json,
      description: Json, achievements: Json)
    ensures Get(ExperienceObject(id, company, title, role, dates, duration, description, achievements), "role") == (if Truthy(title) then title else if Truthy(role) then role else JStr(""))
  {
    ExperienceField(id, company, title, role, dates, duration, description, achievements, 2);
  }

  /** The duration is the dates when given, then the duration, then the empty string. */
  lemma ExperienceDuration(id: Json, company: Json, title: Json, role: Json, dates: Json, duration: Json,
      description: Json, achievements: Json)
    ensures Get(ExperienceObject(id, company, title, role, dates, duration, description, achievements), "duration") == (if Truthy(dates) then dates else if Truthy(duration) then duration else JStr(""))
  {
    ExperienceField(id, company, title, role, dates, duration, description, achievements, 3);
  }

  /** A missing company becomes the empty string. */
  lemma ExperienceCompany(id: Json, company: Json, title: Json, role: Json, dates: Json, duration: Json,
      description: Json, achievements: Json)
    ensures Get(ExperienceObject(id, company, title, role, dates, duration, description, achievements), "company") == (if Truthy(company) then company else JStr(""))
  {
    ExperienceField(id, company, title, role, dates, duration, description, achievements, 1);
  }

  /** A missing description becomes the empty string. */
  lemma ExperienceDescription(id: Json, company: Json, title: Json, role: Json, dates: Json, duration: Json,
      description: Json, achievements: Json)
    ensures Get(ExperienceObject(id, company, title, role, dates, duration, description, achievements), "description") == (if Truthy(description) then description else JStr(""))
  {
    ExperienceField(id, company, title, role, dates, duration, description, achievements, 4);
  }

  /** Missing achievements become the empty list. */
  lemma ExperienceAchievements(id: Json, company: Json, title: Json, role: Json, dates: Json, duration: Json,
      description: Json, achievements: Json)
    ensures Get(ExperienceObject(id, company, title, role, dates, duration, description, achievements), "achievements") == (if Truthy(achievements) then achievements else JArr([]))
  {
    ExperienceField(id, company, title, role, dates, duration, description, achievements, 5);
  }

  /** The object has exactly the six keys, in this order, and keeps the id it was given. */
  lemma ExperienceKeys(id: Json, company: Json, title: Json, role: Json, dates: Json, duration: Json,
      description: Json, achievements: Json)
    ensures var r := ExperienceObject(id, company, title, role, dates, duration, description, achievements);
      Keys(r.fields) == ExperienceKeyNames && Get(r, "id") == id
  {
    var r := ExperienceObject(id, company, title, role, dates, duration, description, achievements);
    LookupAt(r.fields, 0, "id");
  }

  /** The keys of the normalised experience, in order. */
  const ExperienceKeyNames: seq<string> := ["id", "company", "role", "duration", "description", "achievements"]

  lemma ExperienceKeyNamesDistinct()
    ensures Seqs.NoDuplicates(ExperienceKeyNames)
  {
  }

  /** Each of the six keys reads the field written under it. */
  lemma ExperienceField(id: Json, company: Json, title: Json, role: Json, dates: Json, duration: Json,
      description: Json, achievements: Json, i: nat)
    requires i < 6
    ensures var r := ExperienceObject(id, company, title, role, dates, duration, description, achievements);
      Get(r, ExperienceKeyNames[i]) == r.fields[i].1
  {
    var r := ExperienceObject(id, company, title, role, dates, duration, description, achievements);
    ExperienceKeys(id, company, title, role, dates, duration, description, achievements);
    ExperienceKeyNamesDistinct();
    LookupDistinct(r.fields, i);
  }

  /** Every normalised experience has an id: the original when truthy, the generated one otherwise. */
  lemma ExperienceId(exp: Json, freshId: string)
    requires freshId != ""
    ensures Truthy(Get(ProcessExperience(exp, freshId), "id"))
  {
    ExperienceKeys(Or(Get(exp, "id"), JStr(freshId)), Get(exp, "company"), Get(exp, "title"), Get(exp, "role"),
                       Get(exp, "dates"), Get(exp, "duration"), Get(exp, "description"), Get(exp, "achievements"));
  }

  // ---------------------------------------------------------------------
  // The project image mapping
  // ---------------------------------------------------------------------

  /** `project.image ? ensureAbsoluteUrl(project.image) : DEFAULT`; None for the TypeError of a non-string image. */
  function ProjectImage(image: Json): (r: Option<Json>)
    ensures !Truthy(image) ==> r == Some(JStr(GithubService.DefaultProjectImage))
    ensures image.JStr? && image.s != "" ==> r == Some(image)
    ensures r.None? <==> Truthy(image) && !image.JStr?
  {
    if !Truthy(image) then Some(JStr(GithubService.DefaultProjectImage))
    else if image.JStr? then Some(JStr(EnsureAbsoluteUrl(Some(image.s))))
    else None
  }

  /** `{...project, image: …}`; None for the TypeError of reading a field of null or undefined, or of a non-string image. */
  function NormalizeProject(project: Json): (r: Option<Json>)
    ensures r.None? <==> project == JNull || project == JUndefined || (Truthy(Get(project, "image")) && !Get(project, "image").JStr?)
  {
    if project == JNull || project == JUndefined then None
    else
      match ProjectImage(Get(project, "image"))
      case None => None
      case Some(image) => Some(JObj(Assign(SpreadEntries(project), [("image", image)])))
  }

  /**
   * A normalised project keeps every property of the original and its
   * values, except that image is the original image or the default one.
   */
  lemma NormalizeProjectMeaning(fields: seq<(string, Json)>, key: string)
    requires ProjectImage(Lookup(fields, "image")).Some?
    ensures var r := NormalizeProject(JObj(fields));
      r.Some? && r.value.JObj?
      && Keys(r.value.fields) == Seqs.SetInsert(Keys(fields), "image")
      && (key != "image" ==> Lookup(r.value.fields, key) == Lookup(fields, key))
      && (!Truthy(Lookup(fields, "image")) ==> Lookup(r.value.fields, "image") == JStr(GithubService.DefaultProjectImage))
      && (Truthy(Lookup(fields, "image")) ==> Lookup(r.value.fields, "image") == Lookup(fields, "image"))
  {
    var image := ProjectImage(Lookup(fields, "image")).value;
    assert [("image", image)][..0] == [];
    assert Assign(fields, [("image", image)]) == SetField(fields, "image", image);
  }

  /** The projects list: `portfolio?.projects?.map(...) || []`, None when the mapping throws. */
  function NormalizeProjects(projects: Json): (r: Option<seq<Json>>)
    ensures projects == JNull || projects == JUndefined ==> r == Some([])
    ensures r.Some? <==> projects == JNull || projects == JUndefined || (projects.JArr? && forall i :: 0 <= i < |projects.items| ==> NormalizeProject(projects.items[i]).Some?)
    ensures r.Some? && projects.JArr? ==> |r.value| == |projects.items|
  {
    if projects == JNull || projects == JUndefined then Some([])
    else if !projects.JArr? then None
    else NormalizeAll(projects.items)
  }

  function NormalizeAll(items: seq<Json>): (r: Option<seq<Json>>)
    ensures r.Some? ==> |r.value| == |items| && forall i :: 0 <= i < |items| ==> Some(r.value[i]) == NormalizeProject(items[i])
    ensures r.None? ==> exists i :: 0 <= i < |items| && NormalizeProject(items[i]).None?
  {
    if exists i :: 0 <= i < |items| && NormalizeProject(items[i]).None? then None
    else Some(seq(|items|, i requires 0 <= i < |items| => NormalizeProject(items[i]).value))
  }
}
