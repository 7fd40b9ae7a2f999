// The first template's Projects section: the projects of the portfolio
// data, enhanced and filtered once any are loaded, shown four at a time
// behind a "show more" button, with at most three technology badges each.
module ProjectsGrid {
  import opened Text
  import Seqs
  import opened Projects

  /** The projects the section starts from: `data.projects || []`, each enhanced. */
  function LoadProjects(projects: Option<seq<Project>>): (r: seq<Project>)
    ensures projects.None? ==> r == []
    ensures projects.Some? ==>
      (|r| == |projects.value| && forall i :: 0 <= i < |r| ==> r[i] == EnhanceProject(projects.value[i]))
  {
    if projects.None? then []
    else seq(|projects.value|, i requires 0 <= i < |projects.value| => EnhanceProject(projects.value[i]))
  }

  /** Enhancing never touches technologies, so the filters offered are those of the raw project list. */
  lemma {:induction false} LoadKeepsTechnologies(projects: seq<Project>)
    ensures AllTechnologies(LoadProjects(Some(projects))) == AllTechnologies(projects)
  {
    if projects != [] {
      var init := projects[..|projects| - 1];
      LoadKeepsTechnologies(init);
      assert LoadProjects(Some(projects))[..|projects| - 1] == LoadProjects(Some(init));
    }
  }

  /** The filter effect of this section, which returns early while there are no projects. */
  method RefreshFilter(all: seq<Project>, query: string, selected: seq<string>, shown: seq<Project>)
    returns (filtered: seq<Project>)
    ensures all == [] ==> filtered == shown
    ensures all != [] ==> filtered == Filtered(all, query, selected)
  {
    if |all| == 0 {
      return shown;
    }
    filtered := FilterProjects(all, query, selected);
  }

  /** The cards in the grid: all filtered projects once "show more" is on, otherwise the first four. */
  function VisibleProjects(filtered: seq<Project>, showMore: bool): (r: seq<Project>)
    ensures |r| <= |filtered| && r == filtered[..|r|]
    ensures showMore ==> r == filtered
    ensures !showMore ==> |r| == if |filtered| < 4 then |filtered| else 4
  {
    if showMore then filtered else Seqs.Take(filtered, 4)
  }

  /** The "show more" button as the section has it: present above six projects, announcing len - 6 more. */
  function MoreButtonAsWritten(filtered: seq<Project>, showMore: bool): (button: Option<string>)
    ensures button.Some? <==> |filtered| > 6
  {
    if |filtered| > 6 then
      Some(if showMore then "Show Less" else "Show " + NatToString(|filtered| - 6) + " More Projects")
    else None
  }

  /**
   * With five or six projects and "show more" off, the grid shows four and
   * offers no button, so the last one or two stay hidden while show-more is
   * off: always, when the whole list has at most six projects.
   */
  lemma FifthAndSixthUnreachable(filtered: seq<Project>)
    requires 5 <= |filtered| <= 6
    ensures |VisibleProjects(filtered, false)| == 4 < |filtered|
    ensures MoreButtonAsWritten(filtered, false).None?
  {
  }

  /** With seven projects the button promises one more while three are hidden. */
  lemma SevenProjectsMiscount(filtered: seq<Project>)
    requires |filtered| == 7
    ensures MoreButtonAsWritten(filtered, false) == Some("Show 1 More Projects")
    ensures |filtered| - |VisibleProjects(filtered, false)| == 3
  {
    assert NatToString(|filtered| - 6) == "1";
    assert "Show " + "1" + " More Projects" == "Show 1 More Projects";
  }

  /** The button as the slice of four implies: present above four projects, announcing those hidden. */
  function MoreButton(filtered: seq<Project>, showMore: bool): (button: Option<string>)
    ensures button.Some? <==> |filtered| > 4
  {
    if |filtered| > 4 then
      Some(if showMore then "Show Less" else "Show " + NatToString(|filtered| - 4) + " More Projects")
    else None
  }

  /**
   * With the corrected button every project is reachable: either all are
   * shown already, or the button is there, names exactly the hidden count,
   * and pressing it shows the rest.
   */
  lemma EveryProjectReachable(filtered: seq<Project>)
    ensures VisibleProjects(filtered, false) == filtered
         || (MoreButton(filtered, false) == Some("Show " + NatToString(|filtered| - |VisibleProjects(filtered, false)|) + " More Projects")
             && VisibleProjects(filtered, true) == filtered)
  {
  }

  /** The technology badges of a card: at most the first three, then "+n" for the n not shown. */
  function Badges(technologies: Option<seq<string>>): (badges: seq<string>)
    ensures technologies.None? ==> badges == []
    ensures |badges| <= 4
  {
    if technologies.None? || technologies.value == [] then []
    else
      var techs := technologies.value;
      Seqs.Take(techs, 3) + if |techs| > 3 then ["+" + NatToString(|techs| - 3)] else []
  }

  /**
   * The badges show the first min(3, n) technologies in order, and the
   * count in the extra badge accounts for the rest exactly.
   */
  lemma BadgesAccountForAll(techs: seq<string>)
    ensures var badges := Badges(Some(techs));
      var shown := if |techs| < 3 then |techs| else 3;
      |badges| >= shown && badges[..shown] == techs[..shown]
      && (|techs| <= 3 ==> badges == techs)
      && (|techs| > 3 ==> |badges| == 4 && badges[3][0] == '+' && ParseIndex(badges[3][1..]) == Some(|techs| - shown))
  {
    if |techs| > 3 {
      var badges := Badges(Some(techs));
      assert badges[3] == "+" + NatToString(|techs| - 3);
      assert badges[3][1..] == NatToString(|techs| - 3);
      NatToStringRoundTrip(|techs| - 3);
    }
  }
}
