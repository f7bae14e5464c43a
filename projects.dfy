/**
 * The projects carousel (src/views/Projects/Projects.tsx): the category
 * filter, the clamped active index with its buttons and arrow keys, the
 * reset on a category change, the card geometry and the click rules.
 */
module Projects {
  import opened Wrappers

  /** The fields of a project the carousel's logic reads (the rest is display copy). */
  datatype Project = Project(
    id: int,
    title: string,
    github: string,
    live: string,
    category: string,
    sourcePrivate: bool)

  /** The five projects of the page, in order. */
  const AllProjects: seq<Project> := [
    Project(1, "Web Store Project", "", "https://www.bluetoothmobile.vn", "Full-Stack", true),
    Project(2, "Sales Management Web Project", "https://github.com/AleamZ/Sales-Management",
            "https://sales-management-henna.vercel.app", "Full-Stack", false),
    Project(3, "CI Research Company Website", "", "https://ciresearch.vn/dn", "Full-Stack", true),
    Project(4, "Amazing Tech Company Interface", "#", "#", "Frontend", false),
    Project(5, "Portfolio Website", "https://github.com/AleamZ/Portfolio-Web",
            "https://www.aleamz.info.vn/", "Frontend", false)
  ]

  /** The filter buttons. */
  const Categories: seq<string> := ["All", "Frontend", "Backend", "Full-Stack"]

  /** `projects.filter(project => project.category === c)`. */
  function OfCategory(ps: seq<Project>, c: string): (r: seq<Project>)
    ensures |r| <= |ps|
    ensures forall p :: p in r <==> p in ps && p.category == c
  {
    if ps == [] then []
    else if ps[0].category == c then [ps[0]] + OfCategory(ps[1..], c)
    else OfCategory(ps[1..], c)
  }

  /** The filter keeps the original order: it distributes over concatenation. */
  lemma {:induction false} OfCategoryAppend(a: seq<Project>, b: seq<Project>, c: string)
    ensures OfCategory(a + b, c) == OfCategory(a, c) + OfCategory(b, c)
  {
    if a == [] {
      assert a + b == b;
    } else {
      assert (a + b)[1..] == a[1..] + b;
      OfCategoryAppend(a[1..], b, c);
    }
  }

  /** A list all of one category passes the filter whole. */
  lemma {:induction false} OfCategoryAll(ps: seq<Project>, c: string)
    requires forall i :: 0 <= i < |ps| ==> ps[i].category == c
    ensures OfCategory(ps, c) == ps
  {
    if ps != [] {
      OfCategoryAll(ps[1..], c);
    }
  }

  /** `filteredProjects`: everything for `'All'`, else the projects of the category in order. */
  function FilterProjects(ps: seq<Project>, selectedCategory: string): (r: seq<Project>)
    ensures selectedCategory == "All" ==> r == ps
    ensures selectedCategory != "All" ==> forall p :: p in r <==> p in ps && p.category == selectedCategory
  {
    if selectedCategory == "All" then ps else OfCategory(ps, selectedCategory)
  }

  /** The categories of the page's projects, in order. */
  lemma PageCategories()
    ensures |AllProjects| == 5
    ensures forall i :: 0 <= i < 3 ==> AllProjects[i].category == "Full-Stack"
    ensures forall i :: 3 <= i < 5 ==> AllProjects[i].category == "Frontend"
  {
  }

  /** No project is filed under `'Backend'`, so that filter button shows an empty carousel. */
  lemma NoBackendProject()
    ensures FilterProjects(AllProjects, "Backend") == []
  {
    PageCategories();
    OfCategoryNone(AllProjects, "Backend");
  }

  /** `'Frontend'` shows the last two projects, in page order. */
  lemma FrontendProjects()
    ensures FilterProjects(AllProjects, "Frontend") == AllProjects[3..]
  {
    PageCategories();
    FilterPrefixOut(AllProjects, 3, "Frontend");
  }

  /** `'Full-Stack'` shows the first three projects, in page order. */
  lemma FullStackProjects()
    ensures FilterProjects(AllProjects, "Full-Stack") == AllProjects[..3]
  {
    PageCategories();
    FilterPrefixIn(AllProjects, 3, "Full-Stack");
  }

  /** A list whose first `k` projects, and only those, are of `c` filters to that prefix. */
  lemma FilterPrefixIn(ps: seq<Project>, k: nat, c: string)
    requires k <= |ps| && c != "All"
    requires forall i :: 0 <= i < k ==> ps[i].category == c
    requires forall i :: k <= i < |ps| ==> ps[i].category != c
    ensures FilterProjects(ps, c) == ps[..k]
  {
    var a, b := ps[..k], ps[k..];
    assert ps == a + b;
    OfCategoryAppend(a, b, c);
    OfCategoryAll(a, c);
    OfCategoryNone(b, c);
    assert a + [] == a;
  }

  /** A list whose projects from `k` on, and only those, are of `c` filters to that suffix. */
  lemma FilterPrefixOut(ps: seq<Project>, k: nat, c: string)
    requires k <= |ps| && c != "All"
    requires forall i :: 0 <= i < k ==> ps[i].category != c
    requires forall i :: k <= i < |ps| ==> ps[i].category == c
    ensures FilterProjects(ps, c) == ps[k..]
  {
    var a, b := ps[..k], ps[k..];
    assert ps == a + b;
    OfCategoryAppend(a, b, c);
    OfCategoryNone(a, c);
    OfCategoryAll(b, c);
  }

  /** A list with none of a category filters to nothing. */
  lemma {:induction false} OfCategoryNone(ps: seq<Project>, c: string)
    requires forall i :: 0 <= i < |ps| ==> ps[i].category != c
    ensures OfCategory(ps, c) == []
  {
    if ps != [] {
      OfCategoryNone(ps[1..], c);
    }
  }

  // ----- Navigation -----

  /** `Math.min(prev + 1, length - 1)`. */
  function NextIndex(i: int, length: nat): (r: int)
    ensures r <= i + 1 && r <= length - 1
    ensures r == i + 1 || r == length - 1
  {
    if i + 1 < length - 1 then i + 1 else length - 1
  }

  /** `Math.max(prev - 1, 0)`. */
  function PrevIndex(i: int): (r: int)
    ensures r >= i - 1 && r >= 0
    ensures r == i - 1 || r == 0
  {
    if i - 1 > 0 then i - 1 else 0
  }

  /** On a non-empty list both moves keep an in-range index in range. */
  lemma MovesStayInRange(i: int, length: nat)
    requires 0 <= i < length
    ensures 0 <= NextIndex(i, length) < length
    ensures 0 <= PrevIndex(i) < length
  {
  }

  /** `disabled={activeIndex === 0}`. */
  predicate PrevDisabledAt(i: int)
  {
    i == 0
  }

  /** `disabled={activeIndex === filteredProjects.length - 1}`. */
  predicate NextDisabledAt(i: int, length: nat)
  {
    i == length - 1
  }

  /** On a non-empty list a button is disabled exactly when its move would not change the index. */
  lemma DisabledIffNoMove(i: int, length: nat)
    requires 0 <= i < length
    ensures NextDisabledAt(i, length) <==> NextIndex(i, length) == i
    ensures PrevDisabledAt(i) <==> PrevIndex(i) == i
  {
  }

  /**
   * An empty category (`'Backend'`): at index 0 Next is not disabled, since
   * `length - 1` is -1, and pressing it moves the index to -1, off every
   * card; Prev, enabled there, brings it back to 0.
   */
  lemma EmptyListEdge()
    ensures !NextDisabledAt(0, 0) && NextIndex(0, 0) == -1
    ensures !PrevDisabledAt(-1) && PrevIndex(-1) == 0
  {
  }

  // ----- Cards -----

  /** Where a card is drawn: pixels, degrees and stacking order. */
  datatype Pose = Pose(translateX: int, rotateY: int, translateZ: int, zIndex: int)

  function Abs(x: int): nat { if x < 0 then -x else x }

  /** The card at `index` with `active` at the centre. */
  function CardPose(index: int, active: int): (pose: Pose)
    ensures pose.translateX == 320 * (index - active)
    ensures pose.rotateY == -25 * (index - active)
    ensures pose.translateZ == -120 * Abs(index - active)
    ensures pose.zIndex == 100 - Abs(index - active)
  {
    var offset := index - active;
    Pose(offset * 320, -25 * offset, -120 * Abs(offset), 100 - Abs(offset))
  }

  /** The active card is on top and centred; every other card is below it. */
  lemma ActiveCardOnTop(index: int, active: int)
    ensures CardPose(index, active).zIndex <= 100
    ensures CardPose(index, active).zIndex == 100 <==> index == active
    ensures index == active ==> CardPose(index, active) == Pose(0, 0, 0, 100)
  {
  }

  /** Cards at the same distance on either side mirror each other. */
  lemma PoseMirror(active: int, d: int)
    ensures var l, r := CardPose(active - d, active), CardPose(active + d, active);
            l.zIndex == r.zIndex && l.translateZ == r.translateZ &&
            l.translateX == -r.translateX && l.rotateY == -r.rotateY
  {
  }

  /** A card further from the active one is drawn lower and further back. */
  lemma PoseRecedes(i: int, j: int, active: int)
    requires Abs(i - active) < Abs(j - active)
    ensures CardPose(i, active).zIndex > CardPose(j, active).zIndex
    ensures CardPose(i, active).translateZ > CardPose(j, active).translateZ
  {
  }

  /** `!project.sourcePrivate && project.github`: the GitHub link is shown. */
  predicate ShowGithubLink(p: Project)
  {
    !p.sourcePrivate && p.github != ""
  }

  /** On this page the link shows for projects 2, 4 and 5 (project 4's points to `#`). */
  lemma GithubLinksOfThePage()
    ensures forall i :: 0 <= i < |AllProjects| ==> (ShowGithubLink(AllProjects[i]) <==> i in {1, 3, 4})
  {
  }

  /** The carousel's state: the category, the active card and the project opened in the demo. */
  class Carousel {
    const projects: seq<Project>
    var selectedCategory: string
    var activeIndex: int
    var selectedProject: Option<Project>

    /** The cards on screen. */
    function Filtered(): seq<Project>
      reads this
    {
      FilterProjects(projects, selectedCategory)
    }

    /**
     * The index is on a card while there are cards; with none it is 0, or
     * -1 after a press of Next.
     */
    predicate Valid()
      reads this
    {
      if |Filtered()| > 0 then 0 <= activeIndex < |Filtered()| else -1 <= activeIndex <= 0
    }

    /** The hooks' initial values. */
    constructor(ps: seq<Project>)
      ensures Valid()
      ensures projects == ps && selectedCategory == "All" && activeIndex == 0 && selectedProject == None
    {
      projects := ps;
      selectedCategory := "All";
      activeIndex := 0;
      selectedProject := None;
    }

    method GoNext()
      requires Valid()
      modifies this
      ensures Valid()
      ensures activeIndex == NextIndex(old(activeIndex), |Filtered()|)
      ensures selectedCategory == old(selectedCategory) && selectedProject == old(selectedProject)
    {
      activeIndex := NextIndex(activeIndex, |Filtered()|);
    }

    method GoPrev()
      requires Valid()
      modifies this
      ensures Valid()
      ensures activeIndex == PrevIndex(old(activeIndex))
      ensures selectedCategory == old(selectedCategory) && selectedProject == old(selectedProject)
    {
      activeIndex := PrevIndex(activeIndex);
    }

    /** The window's keydown listener: the arrow keys move like the buttons, other keys do nothing. */
    method KeyDown(key: string)
      requires Valid()
      modifies this
      ensures Valid()
      ensures activeIndex == if key == "ArrowRight" then NextIndex(old(activeIndex), |Filtered()|)
                             else if key == "ArrowLeft" then PrevIndex(old(activeIndex))
                             else old(activeIndex)
      ensures selectedCategory == old(selectedCategory) && selectedProject == old(selectedProject)
    {
      if key == "ArrowRight" {
        GoNext();
      } else if key == "ArrowLeft" {
        GoPrev();
      }
    }

    /** A filter button, followed by the effect on `selectedCategory`, which runs only when it changed. */
    method SelectCategory(c: string)
      requires Valid()
      modifies this
      ensures Valid()
      ensures selectedCategory == c && selectedProject == old(selectedProject)
      ensures activeIndex == if c != old(selectedCategory) then 0 else old(activeIndex)
    {
      if c != selectedCategory {
        selectedCategory := c;
        activeIndex := 0;
      }
    }

    /** A click on the card at `index`: a side card becomes active, the active card opens. */
    method ClickCard(index: int)
      requires Valid() && 0 <= index < |Filtered()|
      modifies this
      ensures Valid()
      ensures selectedCategory == old(selectedCategory)
      ensures index != old(activeIndex) ==> activeIndex == index && selectedProject == old(selectedProject)
      ensures index == old(activeIndex) ==> activeIndex == index && selectedProject == Some(Filtered()[index])
    {
      if index != activeIndex {
        activeIndex := index;
      } else {
        selectedProject := Some(Filtered()[index]);
      }
    }

    /** The View button opens its card's project whether or not it is active. */
    method ClickView(index: int)
      requires Valid() && 0 <= index < |Filtered()|
      modifies this
      ensures Valid()
      ensures selectedCategory == old(selectedCategory) && activeIndex == old(activeIndex)
      ensures selectedProject == Some(Filtered()[index])
    {
      selectedProject := Some(Filtered()[index]);
    }

    /** The demo's close button. */
    method CloseDemo()
      requires Valid()
      modifies this
      ensures Valid()
      ensures selectedProject == None
      ensures selectedCategory == old(selectedCategory) && activeIndex == old(activeIndex)
    {
      selectedProject := None;
    }
  }
}
