// The GitHub helpers of the portfolio's data layer: reading owner and
// repository out of a URL, the social-preview image, the basic project
// info, the contribution intensity, and folding a fetched repository into
// a project record.
module GithubService {
  import opened Text
  import Seqs

  /** The image a project gets when it has no usable GitHub URL. */
  const DefaultProjectImage: string := "/assets/default-project.png"

  const GithubPrefix: string := "github.com/"

  /** The stop characters of the repository group in githubService's pattern. */
  const ServiceRepoStops: set<char> := {'/', '?', '#'}

  /** The stop characters of the repository group in the Projects components' pattern. */
  const ViewRepoStops: set<char> := {'/'}

  // ---------------------------------------------------------------------
  // The pattern github\.com\/([^\/]+)\/([^<stops>]+)
  // ---------------------------------------------------------------------

  /** The end of the longest run of characters outside `stops` starting at `i`. */
  function RunEnd(s: string, i: nat, stops: set<char>): (r: nat)
    requires i <= |s|
    ensures i <= r <= |s|
    ensures forall k :: i <= k < r ==> s[k] !in stops
    ensures r == |s| || s[r] in stops
    decreases |s| - i
  {
    if i == |s| || s[i] in stops then i else RunEnd(s, i + 1, stops)
  }

  /**
   * The regular expression matched at position i, read declaratively: the
   * literal prefix, an owner of non-'/' characters, '/', and a repository
   * of characters outside `stops`, each group as long as it can be.
   */
  predicate IsMatchAt(url: string, i: nat, stops: set<char>, owner: string, repo: string)
  {
    var o := i + |GithubPrefix|;
    var r := o + |owner| + 1;
    OccursAt(url, GithubPrefix, i)
    && owner != [] && repo != []
    && r + |repo| <= |url|
    && url[o..o + |owner|] == owner && (forall k :: 0 <= k < |owner| ==> owner[k] != '/')
    && url[o + |owner|] == '/'
    && url[r..r + |repo|] == repo && (forall k :: 0 <= k < |repo| ==> repo[k] !in stops)
    && (r + |repo| == |url| || url[r + |repo|] in stops)
  }

  /** The two groups when the pattern matches at position i. */
  function MatchAt(url: string, i: nat, stops: set<char>): (m: Option<(string, string)>)
    requires '/' in stops
    ensures m.Some? ==> IsMatchAt(url, i, stops, m.value.0, m.value.1)
    ensures forall owner, repo :: IsMatchAt(url, i, stops, owner, repo) ==> m == Some((owner, repo))
  {
    if !OccursAt(url, GithubPrefix, i) then None
    else
      var o := i + |GithubPrefix|;
      var ownerEnd := RunEnd(url, o, {'/'});
      if ownerEnd == o || ownerEnd == |url| then None
      else
        var repoEnd := RunEnd(url, ownerEnd + 1, stops);
        if repoEnd == ownerEnd + 1 then None
        else
          var m := (url[o..ownerEnd], url[ownerEnd + 1..repoEnd]);
          assert IsMatchAt(url, i, stops, m.0, m.1);
          forall owner, repo | IsMatchAt(url, i, stops, owner, repo) ensures (owner, repo) == m {
            MatchUnique(url, i, stops, owner, repo, ownerEnd, repoEnd);
          }
          Some(m)
  }

  /** A match's groups are the maximal runs, so there is only one match at a position. */
  lemma MatchUnique(url: string, i: nat, stops: set<char>, owner: string, repo: string, ownerEnd: nat, repoEnd: nat)
    requires '/' in stops
    requires IsMatchAt(url, i, stops, owner, repo)
    requires ownerEnd == RunEnd(url, i + |GithubPrefix|, {'/'})
    requires ownerEnd < |url| && repoEnd == RunEnd(url, ownerEnd + 1, stops)
    ensures owner == url[i + |GithubPrefix|..ownerEnd] && repo == url[ownerEnd + 1..repoEnd]
  {
    var o := i + |GithubPrefix|;
    assert forall k :: o <= k < o + |owner| ==> url[k] == owner[k - o];
    assert ownerEnd == o + |owner|;
    var r := o + |owner| + 1;
    assert forall k :: r <= k < r + |repo| ==> url[k] == repo[k - r];
    assert repoEnd == r + |repo|;
  }

  /** String.prototype.match: the leftmost position at or after `from` where the pattern matches. */
  function FirstMatch(url: string, from: nat, stops: set<char>): (m: Option<(string, string)>)
    requires '/' in stops
    ensures m.None? ==> forall i, owner, repo :: from <= i && IsMatchAt(url, i, stops, owner, repo) ==> false
    ensures m.Some? ==> exists i :: from <= i && MatchAt(url, i, stops) == m
                                   && forall j :: from <= j < i ==> MatchAt(url, j, stops).None?
    decreases |url| - from
  {
    if from + |GithubPrefix| > |url| then
      assert forall i :: from <= i ==> !OccursAt(url, GithubPrefix, i);
      None
    else
      var here := MatchAt(url, from, stops);
      if here.Some? then
        here
      else
        assert forall owner, repo :: !IsMatchAt(url, from, stops, owner, repo);
        FirstMatch(url, from + 1, stops)
  }

  datatype RepoInfo = RepoInfo(owner: string, repo: string)

  /**
   * extractRepoInfoFromUrl: null for an absent or empty URL and for one the
   * pattern does not match; otherwise the owner and the repository with
   * its first ".git" removed.
   */
  function ExtractRepoInfoFromUrl(url: Option<string>): (r: Option<RepoInfo>)
    ensures url.None? || url == Some("") ==> r.None?
    ensures r.Some? ==> r.value.owner != [] && '/' !in r.value.owner
    ensures r.Some? <==> url.Some? && FirstMatch(url.value, 0, ServiceRepoStops).Some?
    ensures r.Some? ==> var (owner, raw) := FirstMatch(url.value, 0, ServiceRepoStops).value;
      r.value == RepoInfo(owner, ReplaceFirst(raw, ".git", ""))
  {
    match url
    case None => None
    case Some(u) =>
      if u == "" then None
      else
        match FirstMatch(u, 0, ServiceRepoStops)
        case None => None
        case Some((owner, raw)) =>
          var i :| 0 <= i && MatchAt(u, i, ServiceRepoStops) == Some((owner, raw));
          assert forall k :: 0 <= k < |owner| ==> owner[k] != '/';
          Some(RepoInfo(owner, ReplaceFirst(raw, ".git", "")))
  }

  /** The pattern finds the owner and repository of a plain repository link, for either repository stop set. */
  lemma PlainLinkMatch(owner: string, repo: string, stops: set<char>)
    requires '/' in stops
    requires owner != [] && repo != []
    requires forall k :: 0 <= k < |owner| ==> owner[k] != '/'
    requires forall k :: 0 <= k < |repo| ==> repo[k] !in stops
    ensures FirstMatch("https://" + GithubPrefix + owner + "/" + repo, 0, stops) == Some((owner, repo))
  {
    var url := "https://" + GithubPrefix + owner + "/" + repo;
    var i := 8;
    assert url[i..i + |GithubPrefix|] == GithubPrefix;
    assert url[i + |GithubPrefix|..i + |GithubPrefix| + |owner|] == owner;
    assert url[i + |GithubPrefix| + |owner|] == '/';
    assert url[i + |GithubPrefix| + |owner| + 1..] == repo;
    assert IsMatchAt(url, i, stops, owner, repo);
    assert url[..8] == "https://";
    forall j | 0 <= j < i ensures MatchAt(url, j, stops).None? {
      assert url[j] == url[..8][j] != 'g';
      assert url[j..j + |GithubPrefix|][0] == url[j];
    }
    FirstMatchFrom(url, 0, i, stops);
  }

  /** The owner and repository of a plain repository link. */
  lemma ExtractPlainLink(owner: string, repo: string)
    requires owner != [] && repo != []
    requires forall k :: 0 <= k < |owner| ==> owner[k] != '/'
    requires forall k :: 0 <= k < |repo| ==> repo[k] !in ServiceRepoStops
    requires !Contains(repo, ".git")
    ensures var url := "https://" + GithubPrefix + owner + "/" + repo;
      ExtractRepoInfoFromUrl(Some(url)) == Some(RepoInfo(owner, repo))
  {
    PlainLinkMatch(owner, repo, ServiceRepoStops);
  }

  /** When no position before i matches, the leftmost match is the one at i. */
  lemma {:induction false} FirstMatchFrom(url: string, from: nat, i: nat, stops: set<char>)
    requires '/' in stops && from <= i
    requires forall j :: from <= j < i ==> MatchAt(url, j, stops).None?
    requires MatchAt(url, i, stops).Some?
    ensures FirstMatch(url, from, stops) == MatchAt(url, i, stops)
    decreases i - from
  {
    var m := MatchAt(url, i, stops).value;
    assert OccursAt(url, GithubPrefix, i) by {
      assert IsMatchAt(url, i, stops, m.0, m.1);
    }
    assert from + |GithubPrefix| <= |url|;
    if from < i {
      assert MatchAt(url, from, stops).None?;
      assert FirstMatch(url, from, stops) == FirstMatch(url, from + 1, stops);
      FirstMatchFrom(url, from + 1, i, stops);
    }
  }

  /**
   * getRepoImageUrl: the default image when the URL is absent or does not
   * name a repository, and GitHub's social preview otherwise.
   */
  function GetRepoImageUrl(url: Option<string>): (r: string)
    ensures ExtractRepoInfoFromUrl(url).None? ==> r == DefaultProjectImage
    ensures ExtractRepoInfoFromUrl(url).Some? ==> var info := ExtractRepoInfoFromUrl(url).value;
      r == "https://opengraph.githubassets.com/1/" + info.owner + "/" + info.repo
  {
    match ExtractRepoInfoFromUrl(url)
    case None => DefaultProjectImage
    case Some(info) => "https://opengraph.githubassets.com/1/" + info.owner + "/" + info.repo
  }

  /** The images never fall back for a recognised URL: the preview is never the default image. */
  lemma PreviewIsNotDefault(url: Option<string>)
    ensures GetRepoImageUrl(url) == DefaultProjectImage <==> ExtractRepoInfoFromUrl(url).None?
  {
    if ExtractRepoInfoFromUrl(url).Some? {
      assert GetRepoImageUrl(url)[0] == 'h' && DefaultProjectImage[0] == '/';
    }
  }

  datatype BasicInfo = BasicInfo(name: string, owner: string)

  /** getBasicProjectInfo: the repository and owner of the URL, without any fetch. */
  function GetBasicProjectInfo(url: Option<string>): (r: Option<BasicInfo>)
    ensures r.None? <==> ExtractRepoInfoFromUrl(url).None?
    ensures r.Some? ==> r.value == BasicInfo(ExtractRepoInfoFromUrl(url).value.repo, ExtractRepoInfoFromUrl(url).value.owner)
  {
    match ExtractRepoInfoFromUrl(url)
    case None => None
    case Some(info) => Some(BasicInfo(info.repo, info.owner))
  }

  // ---------------------------------------------------------------------
  // Contribution intensity
  // ---------------------------------------------------------------------

  /** `Math.min(Math.floor(count / 2), 4)`. */
  function LevelFromCount(count: int): (level: int)
    ensures count >= 0 ==> 0 <= level <= 4
    ensures level <= 4
  {
    var half := count / 2;
    if half <= 4 then half else 4
  }

  /** A day's level: its reported intensity when that is truthy, else the count formula. */
  function ContributionLevel(intensity: Option<int>, count: int): (level: int)
    ensures intensity.Some? && intensity.value != 0 ==> level == intensity.value
    ensures (intensity.None? || intensity == Some(0)) && count >= 0 ==> 0 <= level <= 4
  {
    if intensity.Some? && intensity.value != 0 then intensity.value else LevelFromCount(count)
  }

  /** The level rises with the count, two contributions per step, and saturates at 4. */
  lemma LevelMonotone(a: int, b: int)
    requires a <= b
    ensures LevelFromCount(a) <= LevelFromCount(b)
    ensures b >= 8 ==> LevelFromCount(b) == 4
  {
  }

  // ---------------------------------------------------------------------
  // Project enrichment
  // ---------------------------------------------------------------------

  /** The fields of a GitHub repository response the enrichment reads. */
  datatype GithubRepo = GithubRepo(
    name: string,
    description: Option<string>,
    homepage: Option<string>,
    stars: int,
    watchers: int,
    forks: int,
    language: Option<string>,
    topics: seq<string>,
    updatedAt: string,
    ownerAvatar: string)

  datatype RepoSummary = RepoSummary(
    stars: int, forks: int, watchers: int, language: Option<string>, topics: seq<string>,
    lastUpdated: string, ownerAvatar: string, repoImage: string, name: string)

  /** A project as it comes in: missing and empty strings are both falsy. */
  datatype ProjectInput = ProjectInput(id: Option<string>, github: Option<string>, demo: Option<string>, featured: bool)

  datatype EnhancedProject = EnhancedProject(
    id: string,
    title: Option<string>,
    description: Option<string>,
    github: Option<string>,
    featured: bool,
    image: Option<string>,
    demo: Option<string>,
    technologies: Option<seq<string>>,
    repoData: Option<RepoSummary>)

  predicate IsTruthy(s: Option<string>)
  {
    s.Some? && s.value != ""
  }

  /** `a || b` on optional strings. */
  function OrElse(a: Option<string>, b: Option<string>): (r: Option<string>)
    ensures r == a || r == b
    ensures IsTruthy(r) <==> IsTruthy(a) || IsTruthy(b)
    ensures IsTruthy(a) ==> r == a
  {
    if IsTruthy(a) then a else b
  }

  /** The Set built from the language (when truthy) and then the topics, read back in insertion order. */
  function RepoTechnologies(repo: GithubRepo): (techs: seq<string>)
    ensures Seqs.NoDuplicates(techs)
    ensures forall t :: t in techs <==> (IsTruthy(repo.language) && t == repo.language.value) || t in repo.topics
    ensures IsTruthy(repo.language) ==> |techs| > 0 && techs[0] == repo.language.value
  {
    var first := if IsTruthy(repo.language) then [repo.language.value] else [];
    var techs := Seqs.Dedup(first + repo.topics);
    Seqs.DedupProperties(first + repo.topics);
    assert forall k :: 0 <= k < |repo.topics| ==> (first + repo.topics)[|first| + k] == repo.topics[k];
    if IsTruthy(repo.language) then
      DedupHead(first + repo.topics);
      techs
    else
      techs
  }

  /** Deduplication keeps the first element first. */
  lemma {:induction false} DedupHead(s: seq<string>)
    requires s != []
    ensures |Seqs.Dedup(s)| > 0 && Seqs.Dedup(s)[0] == s[0]
  {
    if |s| > 1 {
      var init := s[..|s| - 1];
      DedupHead(init);
      assert init[0] == s[0];
    } else {
      assert s[..0] == [];
    }
  }

  /**
   * enhanceProjectWithGithubData, given the id it would generate and the
   * outcome of fetching the repository (fetchRepoData answers null for a
   * URL it cannot parse). The incoming title and description are
   * discarded: the title comes from the URL, or from the repository when
   * the URL gives an empty name, and the description from the repository.
   */
  function EnhanceProjectWithGithubData(project: ProjectInput, generatedId: string, fetched: Option<GithubRepo>): (p: EnhancedProject)
  {
    var id := if IsTruthy(project.id) then project.id.value else generatedId;
    var base := EnhancedProject(id, None, None, if IsTruthy(project.github) then project.github else None,
                                project.featured, None, None, None, None);
    if !IsTruthy(project.github) then base
    else
      var repoImage := GetRepoImageUrl(project.github);
      var basic := GetBasicProjectInfo(project.github);
      var title := if basic.Some? then Some(basic.value.name) else None;
      var withImage := base.(image := Some(repoImage), title := title);
      var repo := if basic.None? then None else fetched;
      match repo
      case None => withImage
      case Some(r) =>
        withImage.(
          title := OrElse(title, Some(r.name)),
          description := r.description,
          demo := OrElse(project.demo, r.homepage),
          technologies := Some(RepoTechnologies(r)),
          repoData := Some(RepoSummary(r.stars, r.forks, r.watchers, r.language, r.topics,
                                       r.updatedAt, r.ownerAvatar, repoImage, r.name)))
  }

  /** What an enriched project keeps, takes from the URL and takes from the repository. */
  lemma EnhanceProperties(project: ProjectInput, generatedId: string, fetched: Option<GithubRepo>)
    ensures var p := EnhanceProjectWithGithubData(project, generatedId, fetched);
      && p.featured == project.featured
      && p.id == (if IsTruthy(project.id) then project.id.value else generatedId)
      && (!IsTruthy(project.github) ==> p.title.None? && p.image.None? && p.repoData.None?)
      && (IsTruthy(project.github) ==> p.image == Some(GetRepoImageUrl(project.github)))
      && (var basic := GetBasicProjectInfo(project.github);
          IsTruthy(project.github) && basic.Some? && basic.value.name != "" ==> p.title == Some(basic.value.name))
      && (p.repoData.Some? <==> IsTruthy(project.github) && GetBasicProjectInfo(project.github).Some? && fetched.Some?)
      && (p.repoData.Some? ==>
            p.description == fetched.value.description
            && p.demo == OrElse(project.demo, fetched.value.homepage)
            && p.technologies == Some(RepoTechnologies(fetched.value))
            && p.repoData.value.stars == fetched.value.stars)
      && (p.repoData.None? ==> p.description.None? && p.demo.None? && p.technologies.None?)
  {
  }
}
