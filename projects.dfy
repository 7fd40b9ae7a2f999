// The project list logic the two Projects components share: the preview
// image, the technology filter list, search and technology filtering, the
// toggles, the repository summary, and (in the modal and the home-page
// section of the second template) sorting and the top-N selection.
module Projects {
  import opened Text
  import Seqs
  import GithubService

  datatype RepoData = RepoData(stars: int, forks: int, lastUpdate: string, language: Option<string>)

  /** The fields of a project the components read; `featured` is false when absent. */
  datatype Project = Project(
    id: Option<string>,
    title: Option<string>,
    description: Option<string>,
    technologies: Option<seq<string>>,
    github: Option<string>,
    featured: bool,
    stars: Option<int>,
    forks: Option<int>,
    updatedAt: Option<string>,
    repoData: Option<RepoData>)

  const PreviewPrefix: string := "https://opengraph.githubassets.com/1/"

  // ---------------------------------------------------------------------
  // getRepoImageUrl (component version)
  // ---------------------------------------------------------------------

  /**
   * The components' getRepoImageUrl: the default image without a URL or a
   * match of github.com/<owner>/<repo>, where the repository group stops
   * only at '/'; otherwise the social preview of the two groups as matched.
   */
  function ViewImageUrl(url: Option<string>): (r: string)
    ensures !GithubService.IsTruthy(url) ==> r == GithubService.DefaultProjectImage
    ensures GithubService.IsTruthy(url) && GithubService.FirstMatch(url.value, 0, GithubService.ViewRepoStops).None? ==>
      r == GithubService.DefaultProjectImage
    ensures GithubService.IsTruthy(url) && GithubService.FirstMatch(url.value, 0, GithubService.ViewRepoStops).Some? ==>
      var (owner, repo) := GithubService.FirstMatch(url.value, 0, GithubService.ViewRepoStops).value;
      r == PreviewPrefix + owner + "/" + repo && owner != [] && repo != []
  {
    if !GithubService.IsTruthy(url) then GithubService.DefaultProjectImage
    else
      match GithubService.FirstMatch(url.value, 0, GithubService.ViewRepoStops)
      case None => GithubService.DefaultProjectImage
      case Some((owner, repo)) => PreviewPrefix + owner + "/" + repo
  }

  /**
   * Unlike the service's extractor, the component keeps a ".git" suffix and
   * any query or fragment in the repository segment of the preview URL.
   */
  lemma ViewImageKeepsRepoSegment(owner: string, repo: string)
    requires owner != [] && repo != []
    requires forall k :: 0 <= k < |owner| ==> owner[k] != '/'
    requires forall k :: 0 <= k < |repo| ==> repo[k] != '/'
    ensures ViewImageUrl(Some("https://" + GithubService.GithubPrefix + owner + "/" + repo)) == PreviewPrefix + owner + "/" + repo
  {
    GithubService.PlainLinkMatch(owner, repo, GithubService.ViewRepoStops);
  }

  /** For github.com/o/site.git the service previews "site" but the component previews "site.git". */
  lemma ViewAndServiceDisagreeOnGitSuffix(owner: string, name: string)
    requires owner != [] && name != []
    requires forall k :: 0 <= k < |owner| ==> owner[k] != '/'
    requires forall k :: 0 <= k < |name| ==> name[k] !in GithubService.ServiceRepoStops
    requires !Contains(name, ".git") && !Contains(name, ".gi")
    ensures var url := "https://" + GithubService.GithubPrefix + owner + "/" + name + ".git";
      ViewImageUrl(Some(url)) == PreviewPrefix + owner + "/" + name + ".git"
      && GithubService.GetRepoImageUrl(Some(url)) == PreviewPrefix + owner + "/" + name
  {
    var repo := name + ".git";
    assert "https://" + GithubService.GithubPrefix + owner + "/" + name + ".git"
        == "https://" + GithubService.GithubPrefix + owner + "/" + repo;
    assert forall k :: 0 <= k < |repo| ==> repo[k] !in GithubService.ServiceRepoStops by {
      forall k | 0 <= k < |repo| ensures repo[k] !in GithubService.ServiceRepoStops {
        if k >= |name| {
          assert repo[k] == ".git"[k - |name|];
        }
      }
    }
    ViewImageKeepsRepoSegment(owner, repo);
    GithubService.PlainLinkMatch(owner, repo, GithubService.ServiceRepoStops);
    FirstGitAtEnd(name);
  }

  /** The first ".git" of name + ".git" is the appended one when name has no ".gi" prefix of it. */
  lemma FirstGitAtEnd(name: string)
    requires !Contains(name, ".gi")
    ensures ReplaceFirst(name + ".git", ".git", "") == name
  {
    var s := name + ".git";
    OccursAtEnd(s, name);
    forall j | 0 <= j < |name| ensures !OccursAt(s, ".git", j) {
      if OccursAt(s, ".git", j) {
        assert s[j..j + 4] == ".git";
        assert s[j + 1] == 'g' && s[j + 2] == 'i' && s[j + 3] == 't' by {
          assert s[j + 1] == s[j..j + 4][1] && s[j + 2] == s[j..j + 4][2] && s[j + 3] == s[j..j + 4][3];
        }
        // so a match cannot start in the last three characters of name, where it would cover the appended '.'
        assert s[|name|] == '.';
        if j + 3 <= |name| {
          assert name[j..j + 3] == s[j..j + 4][..3] == ".gi";
          ContainsAt(name, ".gi", j);
        }
      }
    }
    match IndexOf(s, ".git")
    case None =>
    case Some(i) =>
      assert i == |name|;
      assert s[..|name|] == name;
  }

  lemma OccursAtEnd(s: string, name: string)
    requires s == name + ".git"
    ensures OccursAt(s, ".git", |name|)
  {
    assert s[|name|..|name| + 4] == ".git";
  }

  // ---------------------------------------------------------------------
  // The technologies offered as filters
  // ---------------------------------------------------------------------

  /** `project.technologies ?? []`. */
  function TechsOf(p: Project): seq<string>
  {
    if p.technologies.Some? then p.technologies.value else []
  }

  /** Every project's technologies, project after project. */
  function AllTechnologies(projects: seq<Project>): seq<string>
  {
    if projects == [] then [] else AllTechnologies(projects[..|projects| - 1]) + TechsOf(projects[|projects| - 1])
  }

  /** The tech Set: each technology once, in the order it is first met. */
  function TechSet(projects: seq<Project>): seq<string>
  {
    Seqs.Dedup(AllTechnologies(projects))
  }

  /** The forEach over the projects and their technologies, adding each to the Set. */
  method CollectTechnologies(projects: seq<Project>) returns (techSet: seq<string>)
    ensures techSet == TechSet(projects)
  {
    techSet := [];
    for i := 0 to |projects|
      invariant techSet == Seqs.InsertAll([], AllTechnologies(projects[..i]))
    {
      var techs := TechsOf(projects[i]);
      ghost var before := techSet;
      for j := 0 to |techs|
        invariant techSet == Seqs.InsertAll(before, techs[..j])
      {
        assert techs[..j + 1][..j] == techs[..j];
        techSet := Seqs.SetInsert(techSet, techs[j]);
      }
      assert techs[..|techs|] == techs;
      assert projects[..i + 1][..i] == projects[..i];
      Seqs.InsertAllAppend([], AllTechnologies(projects[..i]), techs);
    }
    assert projects[..|projects|] == projects;
  }

  /** availableTech: Array.from(techSet).sort(). */
  method AvailableTechnologies(projects: seq<Project>) returns (available: seq<string>)
    ensures available == Seqs.SortStrings(TechSet(projects))
  {
    var techSet := CollectTechnologies(projects);
    available := Seqs.SortStrings(techSet);
  }

  /** The offered technologies are exactly those some project lists, each once, in code-unit order. */
  lemma AvailableTechnologiesMeaning(projects: seq<Project>)
    ensures var available := Seqs.SortStrings(TechSet(projects));
      Seqs.StrSorted(available) && Seqs.NoDuplicates(available)
      && forall t :: t in available <==> exists i :: 0 <= i < |projects| && t in TechsOf(projects[i])
  {
    var all := AllTechnologies(projects);
    Seqs.DedupProperties(all);
    Seqs.SortStringsProperties(TechSet(projects));
    var available := Seqs.SortStrings(TechSet(projects));
    forall t ensures t in available <==> exists i :: 0 <= i < |projects| && t in TechsOf(projects[i]) {
      assert t in available <==> t in multiset(TechSet(projects));
      assert t in TechSet(projects) <==> t in all;
      AllTechnologiesMembership(projects, t);
    }
  }

  lemma {:induction false} AllTechnologiesMembership(projects: seq<Project>, t: string)
    ensures t in AllTechnologies(projects) <==> exists i :: 0 <= i < |projects| && t in TechsOf(projects[i])
  {
    if projects != [] {
      var init := projects[..|projects| - 1];
      AllTechnologiesMembership(init, t);
      if t in AllTechnologies(init) {
        var i :| 0 <= i < |init| && t in TechsOf(init[i]);
        assert projects[i] == init[i];
      }
      if exists i :: 0 <= i < |projects| && t in TechsOf(projects[i]) {
        var i :| 0 <= i < |projects| && t in TechsOf(projects[i]);
        if i < |init| {
          assert init[i] == projects[i];
        }
      }
    }
  }

  // ---------------------------------------------------------------------
  // Search and technology filters
  // ---------------------------------------------------------------------

  /** The lower-cased title or description contains the query (already lower-cased). */
  predicate MatchesQuery(p: Project, query: string)
  {
    (p.title.Some? && Contains(ToLower(p.title.value), query))
    || (p.description.Some? && Contains(ToLower(p.description.value), query))
  }

  /** Some technology of the project is selected. */
  predicate UsesSelected(p: Project, selected: seq<string>)
  {
    p.technologies.Some? && exists i :: 0 <= i < |p.technologies.value| && p.technologies.value[i] in selected
  }

  /**
   * A project is kept when the query is blank or matches, and no technology
   * is selected or the project uses one. A non-blank query is lower-cased
   * but not trimmed before matching.
   */
  predicate Keep(p: Project, query: string, selected: seq<string>)
  {
    (Trim(query) == "" || MatchesQuery(p, ToLower(query))) && (selected == [] || UsesSelected(p, selected))
  }

  /** The list the filter effect produces, read as one filter. */
  function Filtered(projects: seq<Project>, query: string, selected: seq<string>): seq<Project>
  {
    Seqs.Filter(projects, (p: Project) => Keep(p, query, selected))
  }

  /** The filter effect: the search filter, then the technology filter, each only when it applies. */
  method FilterProjects(projects: seq<Project>, query: string, selected: seq<string>) returns (filtered: seq<Project>)
    ensures filtered == Filtered(projects, query, selected)
  {
    filtered := projects;
    var searchApplied := false;
    if Trim(query) != "" {
      var q := ToLower(query);
      filtered := Seqs.Filter(filtered, (p: Project) => MatchesQuery(p, q));
      searchApplied := true;
    }
    var byQuery := filtered;
    if |selected| > 0 {
      filtered := Seqs.Filter(filtered, (p: Project) => UsesSelected(p, selected));
    }
    var keep := (p: Project) => Keep(p, query, selected);
    if searchApplied && |selected| > 0 {
      Seqs.FilterFilter(projects, (p: Project) => MatchesQuery(p, ToLower(query)), (p: Project) => UsesSelected(p, selected), keep);
    } else if searchApplied {
      Seqs.FilterExt(projects, (p: Project) => MatchesQuery(p, ToLower(query)), keep);
    } else if |selected| > 0 {
      Seqs.FilterExt(projects, (p: Project) => UsesSelected(p, selected), keep);
    } else {
      Seqs.FilterAll(projects, keep);
    }
  }

  /**
   * The filtered list keeps the original order, holds only projects that
   * pass both filters, and loses none that pass them; with a blank query
   * and nothing selected it is the whole list.
   */
  lemma FilteredMeaning(projects: seq<Project>, query: string, selected: seq<string>)
    ensures var r := Filtered(projects, query, selected);
      Seqs.IsSubsequence(r, projects)
      && (forall i :: 0 <= i < |r| ==> Keep(r[i], query, selected))
      && (forall i :: 0 <= i < |projects| && Keep(projects[i], query, selected) ==> projects[i] in r)
    ensures Trim(query) == "" && selected == [] ==> Filtered(projects, query, selected) == projects
  {
    if Trim(query) == "" && selected == [] {
      Seqs.FilterAll(projects, (p: Project) => Keep(p, query, selected));
    }
  }

  /** Selecting a technology can only shrink the list. */
  lemma SelectingNarrows(projects: seq<Project>, query: string, selected: seq<string>, tech: string)
    requires selected != []
    ensures Seqs.IsSubsequence(Filtered(projects, query, selected), Filtered(projects, query, []))
  {
    Seqs.FilterFilter(projects, (p: Project) => Keep(p, query, []), (p: Project) => Keep(p, query, selected), (p: Project) => Keep(p, query, selected));
  }

  // ---------------------------------------------------------------------
  // The toggles
  // ---------------------------------------------------------------------

  /** handleTechFilterToggle: a selected technology is removed, an unselected one appended. */
  function ToggleTech(prev: seq<string>, tech: string): (r: seq<string>)
    ensures tech in r <==> tech !in prev
    ensures forall t :: t != tech ==> (t in r <==> t in prev)
    ensures Seqs.NoDuplicates(prev) ==> Seqs.NoDuplicates(r)
    ensures Seqs.Filter(r, (t: string) => t != tech) == Seqs.Filter(prev, (t: string) => t != tech)
  {
    if tech in prev then
      var r := Seqs.Filter(prev, (t: string) => t != tech);
      Seqs.FilterFilter(prev, (t: string) => t != tech, (t: string) => t != tech, (t: string) => t != tech);
      if Seqs.NoDuplicates(prev) then
        Seqs.FilterNoDuplicates(prev, (t: string) => t != tech);
        r
      else
        r
    else
      var r := prev + [tech];
      Seqs.FilterAppend(prev, [tech], (t: string) => t != tech);
      assert Seqs.Filter([tech], (t: string) => t != tech) == [];
      r
  }

  /** Selecting a technology and unselecting it again restores the selection exactly. */
  lemma ToggleTechTwice(prev: seq<string>, tech: string)
    requires tech !in prev
    ensures ToggleTech(ToggleTech(prev, tech), tech) == prev
  {
    Seqs.FilterAppend(prev, [tech], (t: string) => t != tech);
    assert Seqs.Filter([tech], (t: string) => t != tech) == [];
    Seqs.FilterAll(prev, (t: string) => t != tech);
    assert prev + [] == prev;
  }

  /** The orders the modal offers. */
  datatype SortOrder = ByFeatured | ByRecent | ByStars

  /** handleSortToggle: choosing the current order clears it, choosing another selects it. */
  function ToggleSort(current: Option<SortOrder>, chosen: SortOrder): (r: Option<SortOrder>)
    ensures r.None? <==> current == Some(chosen)
    ensures r.Some? ==> r.value == chosen
  {
    if current == Some(chosen) then None else Some(chosen)
  }

  /** Choosing an order twice in a row returns to it when it was current, and otherwise ends with no order. */
  lemma ToggleSortTwice(current: Option<SortOrder>, chosen: SortOrder)
    ensures ToggleSort(ToggleSort(current, chosen), chosen) == if current == Some(chosen) then current else None
  {
  }

  // ---------------------------------------------------------------------
  // enhanceProject
  // ---------------------------------------------------------------------

  /** `project.technologies?.[0]`. */
  function FirstTechnology(p: Project): Option<string>
  {
    if p.technologies.Some? && |p.technologies.value| > 0 then Some(p.technologies.value[0]) else None
  }

  /**
   * enhanceProject: a project with a repository summary is returned as it is;
   * otherwise a summary is added exactly when both stars and forks are known,
   * and no other field changes.
   */
  function EnhanceProject(p: Project): (r: Project)
    ensures p.repoData.Some? ==> r == p
    ensures r == p.(repoData := r.repoData)
    ensures p.repoData.None? ==> (r.repoData.Some? <==> p.stars.Some? && p.forks.Some?)
    ensures p.repoData.None? && r.repoData.Some? ==>
      r.repoData.value.stars == p.stars.value && r.repoData.value.forks == p.forks.value
      && r.repoData.value.language == FirstTechnology(p)
      && r.repoData.value.lastUpdate == (if GithubService.IsTruthy(p.updatedAt) then p.updatedAt.value else "")
  {
    if p.repoData.Some? then p
    else
      var summary :=
        if p.stars.Some? && p.forks.Some? then
          Some(RepoData(p.stars.value, p.forks.value,
                        if GithubService.IsTruthy(p.updatedAt) then p.updatedAt.value else "",
                        FirstTechnology(p)))
        else None;
      p.(repoData := summary)
  }

  /** Enhancing an enhanced project changes nothing. */
  lemma EnhanceIdempotent(p: Project)
    ensures EnhanceProject(EnhanceProject(p)) == EnhanceProject(p)
  {
    var once := EnhanceProject(p);
    if once.repoData.None? {
      assert p.repoData.None? && !(p.stars.Some? && p.forks.Some?);
    }
  }

  // ---------------------------------------------------------------------
  // sortedProjects (the modal)
  // ---------------------------------------------------------------------

  /** `project.repoData?.stars || 0`. */
  function RepoStars(p: Project): int
  {
    if p.repoData.Some? then p.repoData.value.stars else 0
  }

  /** The last update as a timestamp, epoch 0 when missing; parsing a date string is a parameter. */
  function UpdatedTime(p: Project, parseDate: string -> int): int
  {
    if GithubService.IsTruthy(p.updatedAt) then parseDate(p.updatedAt.value) else 0
  }

  /** The key each comparator orders by, smaller first. */
  function SortKey(order: SortOrder, parseDate: string -> int): Project -> (int, int)
  {
    match order
    case ByFeatured => (p: Project) => (if p.featured then 0 else 1, -RepoStars(p))
    case ByRecent => (p: Project) => (-UpdatedTime(p, parseDate), 0)
    case ByStars => (p: Project) => (-RepoStars(p), 0)
  }

  /** sortedProjects: no order keeps the filtered order; otherwise a stable sort by the order's comparator. */
  function SortedProjects(filtered: seq<Project>, order: Option<SortOrder>, parseDate: string -> int): seq<Project>
  {
    if filtered == [] then []
    else if order.None? then filtered
    else Seqs.SortByKey(filtered, SortKey(order.value, parseDate))
  }

  /**
   * The sorted list is a permutation of the filtered one. By "featured",
   * featured projects come first and stars decrease within each group; by
   * "recent", updates are newest first; by "stars", stars decrease; ties
   * keep their filtered order; without an order nothing moves.
   */
  lemma SortedProjectsMeaning(filtered: seq<Project>, order: Option<SortOrder>, parseDate: string -> int)
    ensures var s := SortedProjects(filtered, order, parseDate);
      multiset(s) == multiset(filtered) && |s| == |filtered|
      && (order.None? ==> s == filtered)
      && (order == Some(ByFeatured) ==> forall i, j :: 0 <= i < j < |s| ==>
            (s[j].featured ==> s[i].featured)
            && (s[i].featured == s[j].featured ==> RepoStars(s[i]) >= RepoStars(s[j])))
      && (order == Some(ByRecent) ==> forall i, j :: 0 <= i < j < |s| ==> UpdatedTime(s[i], parseDate) >= UpdatedTime(s[j], parseDate))
      && (order == Some(ByStars) ==> forall i, j :: 0 <= i < j < |s| ==> RepoStars(s[i]) >= RepoStars(s[j]))
      && (order.Some? ==> forall k :: Seqs.WithKey(s, SortKey(order.value, parseDate), k)
                                    == Seqs.WithKey(filtered, SortKey(order.value, parseDate), k))
  {
    if filtered != [] && order.Some? {
      var key := SortKey(order.value, parseDate);
      Seqs.SortByKeyProperties(filtered, key);
      var s := Seqs.SortByKey(filtered, key);
      forall i, j | 0 <= i < j < |s| ensures !Seqs.KeyLess(key(s[j]), key(s[i])) {
      }
    }
  }

  // ---------------------------------------------------------------------
  // topProjects (the home-page section of the second template)
  // ---------------------------------------------------------------------

  /** How many cards the section shows: 4 on a window at least 768 pixels wide, 2 otherwise. */
  function DisplayCount(windowWidth: int): (n: nat)
    ensures n == 2 || n == 4
    ensures n == 4 <==> windowWidth >= 768
  {
    if windowWidth >= 768 then 4 else 2
  }

  function StarsDescending(): Project -> (int, int)
  {
    (p: Project) => (-RepoStars(p), 0)
  }

  predicate IsFeatured(p: Project)
  {
    p.featured
  }

  predicate IsOther(p: Project)
  {
    !p.featured
  }

  /** The non-featured projects, most starred first. */
  function MostStarredOthers(all: seq<Project>): seq<Project>
  {
    Seqs.SortByKey(Seqs.Filter(all, IsOther), StarsDescending())
  }

  /**
   * topProjects: enough featured projects fill the section on their own;
   * otherwise all featured ones are followed by the most starred others.
   */
  function TopProjects(all: seq<Project>, displayCount: nat): seq<Project>
  {
    if all == [] then []
    else
      var featured := Seqs.Filter(all, IsFeatured);
      if |featured| >= displayCount then featured[..displayCount]
      else Seqs.Take(featured + MostStarredOthers(all), displayCount)
  }

  /** The section shows min(displayCount, |all|) projects. */
  lemma TopProjectsLength(all: seq<Project>, displayCount: nat)
    ensures |TopProjects(all, displayCount)| == if displayCount <= |all| then displayCount else |all|
  {
    Seqs.FilterPartition(all, IsFeatured, IsOther);
    Seqs.SortByKeyProperties(Seqs.Filter(all, IsOther), StarsDescending());
  }

  /** The non-featured projects in stars order are all non-featured, with stars decreasing. */
  lemma MostStarredOthersMeaning(all: seq<Project>)
    ensures var others := MostStarredOthers(all);
      (forall i :: 0 <= i < |others| ==> !others[i].featured)
      && (forall i, j :: 0 <= i < j < |others| ==> RepoStars(others[i]) >= RepoStars(others[j]))
  {
    var rest := Seqs.Filter(all, IsOther);
    Seqs.SortByKeyProperties(rest, StarsDescending());
    var others := MostStarredOthers(all);
    forall i | 0 <= i < |others| ensures !others[i].featured {
      assert others[i] in multiset(rest);
    }
    forall i, j | 0 <= i < j < |others| ensures RepoStars(others[i]) >= RepoStars(others[j]) {
      assert !Seqs.KeyLess(StarsDescending()(others[j]), StarsDescending()(others[i]));
    }
  }

  /** With enough featured projects the section shows the first of them. */
  lemma TopProjectsEnoughFeatured(all: seq<Project>, displayCount: nat)
    requires |Seqs.Filter(all, IsFeatured)| >= displayCount
    ensures TopProjects(all, displayCount) == Seqs.Filter(all, IsFeatured)[..displayCount]
  {
  }

  /**
   * Otherwise it shows every featured project in order, then non-featured
   * ones with stars decreasing.
   */
  lemma TopProjectsFilledUp(all: seq<Project>, displayCount: nat)
    requires |Seqs.Filter(all, IsFeatured)| < displayCount
    ensures var top := TopProjects(all, displayCount);
      var n := |Seqs.Filter(all, IsFeatured)|;
      n <= |top| && top[..n] == Seqs.Filter(all, IsFeatured)
      && (forall i :: n <= i < |top| ==> !top[i].featured)
      && (forall i, j :: n <= i < j < |top| ==> RepoStars(top[i]) >= RepoStars(top[j]))
  {
    if all != [] {
      MostStarredOthersMeaning(all);
      Seqs.TakeAppend(Seqs.Filter(all, IsFeatured), MostStarredOthers(all), displayCount);
    }
  }
}
