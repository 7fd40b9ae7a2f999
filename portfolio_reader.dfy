// Direct reads of the portfolio file for static display: the `.data`
// unwrap and the accessors that split projects by their featured flag or
// pick one section with an empty fallback.
module PortfolioReader {
  import opened Text
  import opened Json
  import Seqs
  import PortfolioStorage

  /**
   * readPortfolioData: the file's `data` property when truthy, and null
   * when it is falsy, when the response is not ok or the fetch or the
   * parse throws, and when the body is null (the `.data` read throws).
   */
  function ReadPortfolioData(file: PortfolioStorage.FileRead): (r: Json)
    ensures r == JNull || (file.FileBody? && Truthy(r) && r == Get(file.body, "data"))
    ensures file.FileBody? && Truthy(Get(file.body, "data")) ==> r == Get(file.body, "data")
  {
    match file
    case FileUnavailable => JNull
    case FileBody(body) =>
      if body == JNull || body == JUndefined then JNull
      else Or(Get(body, "data"), JNull)
  }

  /** `project.featured === true`; reading the flag of null or undefined throws. */
  predicate IsFeatured(project: Json)
  {
    Get(project, "featured") == JBool(true)
  }

  predicate NotFeatured(project: Json)
  {
    !IsFeatured(project)
  }

  /** A project list `.filter` can run over: an array without null or undefined entries. */
  predicate Filterable(projects: Json)
  {
    projects.JArr? && forall i :: 0 <= i < |projects.items| ==> projects.items[i] != JNull && projects.items[i] != JUndefined
  }

  /**
   * The projects `.filter(keep)` sees: none for falsy data or a falsy
   * project list, None for the TypeError `.filter` throws on a value that
   * is not a suitable array.
   */
  function ProjectsToFilter(data: Json): (r: Option<seq<Json>>)
    ensures !Truthy(data) || !Truthy(Get(data, "projects")) ==> r == Some([])
    ensures Truthy(data) && Truthy(Get(data, "projects")) ==>
      (r.Some? <==> Filterable(Get(data, "projects"))) && (r.Some? ==> r.value == Get(data, "projects").items)
  {
    if !Truthy(data) || !Truthy(Get(data, "projects")) then Some([])
    else if Filterable(Get(data, "projects")) then Some(Get(data, "projects").items)
    else None
  }

  /** getFeaturedProjects. */
  function FeaturedProjects(data: Json): (r: Option<seq<Json>>)
    ensures r.Some? <==> ProjectsToFilter(data).Some?
    ensures r.Some? ==> r.value == Seqs.Filter(ProjectsToFilter(data).value, IsFeatured)
  {
    match ProjectsToFilter(data)
    case None => None
    case Some(projects) => Some(Seqs.Filter(projects, IsFeatured))
  }

  /** getOtherProjects. */
  function OtherProjects(data: Json): (r: Option<seq<Json>>)
    ensures r.Some? <==> ProjectsToFilter(data).Some?
    ensures r.Some? ==> r.value == Seqs.Filter(ProjectsToFilter(data).value, NotFeatured)
  {
    match ProjectsToFilter(data)
    case None => None
    case Some(projects) => Some(Seqs.Filter(projects, NotFeatured))
  }

  /**
   * The featured and the other projects split the project list: both
   * succeed or both fail, each keeps the original order, every project is
   * in exactly the one its flag selects, and together they hold each
   * project as often as the list does.
   */
  lemma FeaturedAndOtherPartition(data: Json)
    ensures FeaturedProjects(data).Some? <==> OtherProjects(data).Some?
    ensures FeaturedProjects(data).Some? ==>
      var all, featured, other := ProjectsToFilter(data).value, FeaturedProjects(data).value, OtherProjects(data).value;
      multiset(featured) + multiset(other) == multiset(all)
      && |featured| + |other| == |all|
      && Seqs.IsSubsequence(featured, all) && Seqs.IsSubsequence(other, all)
      && (forall i :: 0 <= i < |featured| ==> IsFeatured(featured[i]))
      && (forall i :: 0 <= i < |other| ==> !IsFeatured(other[i]))
  {
    if ProjectsToFilter(data).Some? {
      var all := ProjectsToFilter(data).value;
      Seqs.FilterPartition(all, IsFeatured, NotFeatured);
      Seqs.FilterPartitionMultiset(all, IsFeatured, NotFeatured);
    }
  }

  /** Example: a project whose flag is `"true"` or 1 rather than true is not featured, since the comparison is strict. */
  lemma StrictFeaturedFlag(fields: seq<(string, Json)>)
    requires fields == [("featured", JStr("true"))] || fields == [("featured", JNum(1))]
    ensures !IsFeatured(JObj(fields))
  {
  }

  /** A section read with a fallback: the fallback for falsy data or a falsy section, the section otherwise. */
  function SectionOr(data: Json, key: string, fallback: Json): (r: Json)
    ensures !Truthy(data) || !Truthy(Get(data, key)) ==> r == fallback
    ensures Truthy(data) && Truthy(Get(data, key)) ==> r == Get(data, key)
  {
    if !Truthy(data) || !Truthy(Get(data, key)) then fallback else Get(data, key)
  }

  /** getTechStackWithIcons: the tech stack as stored, or []. */
  function TechStackWithIcons(data: Json): (r: Json)
    ensures Truthy(r) && (r == Get(data, "techStack") || r == JArr([]))
    ensures Truthy(data) && Truthy(Get(data, "techStack")) ==> r == Get(data, "techStack")
  {
    SectionOr(data, "techStack", JArr([]))
  }

  /** getInsightsWithFallbacks: the insights as stored, or null. */
  function InsightsWithFallbacks(data: Json): (r: Json)
    ensures r == JNull || (Truthy(r) && r == Get(data, "insights"))
    ensures Truthy(data) && Truthy(Get(data, "insights")) ==> r == Get(data, "insights")
  {
    SectionOr(data, "insights", JNull)
  }

  /** getExperience: the experience list as stored, or []. */
  function Experience(data: Json): (r: Json)
    ensures Truthy(r) && (r == Get(data, "experience") || r == JArr([]))
    ensures Truthy(data) && Truthy(Get(data, "experience")) ==> r == Get(data, "experience")
  {
    SectionOr(data, "experience", JArr([]))
  }
}
