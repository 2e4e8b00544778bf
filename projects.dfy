/**
 * The project gallery: a fixed catalog filtered by category, a featured block,
 * and pagination six to a page with guarded previous/next buttons.
 */
module Projects {

  datatype Category = All | Web | Mobile

  /** A project as the gallery's logic sees it; title, texts and images are left out. */
  datatype Project = Project(id: string, category: Category, featured: bool)

  const ProjectsPerPage := 6

  /** How many featured projects the featured block shows at most. */
  const FeaturedShown := 3

  /** The catalog, in display order: ten projects with distinct ids. */
  function Catalog(): (c: seq<Project>)
    ensures |c| == 10
    ensures forall i, j :: 0 <= i < j < |c| ==> c[i].id != c[j].id
  {
    [ Project("stavebniny-agaty", Web, true),
      Project("auto-skalicky", Web, true),
      Project("don-galvan", Web, false),
      Project("keep-sustain", Web, false),
      Project("vaultify", Mobile, true),
      Project("pod-borovicami", Web, true),
      Project("upsys", Web, true),
      Project("omnia-app", Mobile, true),
      Project("haze-branding", Web, true),
      Project("portfolio-website", Web, true) ]
  }

  function Min(a: int, b: int): int {
    if a < b then a else b
  }

  // ---------------------------------------------------------------------------
  // Filtering
  // ---------------------------------------------------------------------------

  /** The projects that satisfy `keep`, in their original order. */
  function Select(projects: seq<Project>, keep: Project -> bool): (r: seq<Project>)
    ensures forall p :: p in r <==> p in projects && keep(p)
    ensures |r| <= |projects|
  {
    if projects == [] then []
    else
      assert projects == [projects[0]] + projects[1..];
      var rest := Select(projects[1..], keep);
      if keep(projects[0]) then [projects[0]] + rest else rest
  }

  /** Selecting keeps the original order: it distributes over concatenation. */
  lemma {:induction false} SelectAppend(a: seq<Project>, b: seq<Project>, keep: Project -> bool)
    ensures Select(a + b, keep) == Select(a, keep) + Select(b, keep)
  {
    if a == [] {
      assert a + b == b;
    } else {
      assert (a + b)[0] == a[0];
      assert (a + b)[1..] == a[1..] + b;
      SelectAppend(a[1..], b, keep);
    }
  }

  /** A list selects to itself exactly when every project in it is kept. */
  lemma {:induction false} SelectAllKept(projects: seq<Project>, keep: Project -> bool)
    ensures Select(projects, keep) == projects <==> forall p :: p in projects ==> keep(p)
  {
    if projects != [] {
      assert projects == [projects[0]] + projects[1..];
      SelectAllKept(projects[1..], keep);
      if !keep(projects[0]) {
        assert |Select(projects, keep)| < |projects|;
      }
    }
  }

  /** The projects of one category, in catalog order. */
  function OfCategory(projects: seq<Project>, category: Category): (r: seq<Project>)
    ensures forall p :: p in r <==> p in projects && p.category == category
    ensures |r| <= |projects|
  {
    Select(projects, (p: Project) => p.category == category)
  }

  /** The category filter keeps catalog order: it distributes over concatenation. */
  lemma OfCategoryAppend(a: seq<Project>, b: seq<Project>, category: Category)
    ensures OfCategory(a + b, category) == OfCategory(a, category) + OfCategory(b, category)
  {
    SelectAppend(a, b, (p: Project) => p.category == category);
  }

  /** Under "all" the whole list; otherwise the projects of that category in order. */
  function Filtered(projects: seq<Project>, category: Category): (r: seq<Project>)
    ensures category == All ==> r == projects
    ensures category != All ==> r == OfCategory(projects, category)
    ensures category != All ==> forall p :: p in r <==> p in projects && p.category == category
  {
    if category == All then projects else OfCategory(projects, category)
  }

  /** The projects flagged as featured, in catalog order. */
  function Featured(projects: seq<Project>): (r: seq<Project>)
    ensures forall p :: p in r <==> p in projects && p.featured
    ensures |r| <= |projects|
  {
    Select(projects, (p: Project) => p.featured)
  }

  /** The featured projects keep catalog order: featuring distributes over concatenation. */
  lemma FeaturedAppend(a: seq<Project>, b: seq<Project>)
    ensures Featured(a + b) == Featured(a) + Featured(b)
  {
    SelectAppend(a, b, (p: Project) => p.featured);
  }

  /**
   * The featured block: shown only under "all" on page 1, with the first
   * three featured projects.
   */
  function FeaturedBlock(projects: seq<Project>, category: Category, page: int): (r: seq<Project>)
    ensures |r| <= FeaturedShown
    ensures forall p :: p in r ==> p in projects && p.featured
    ensures (category != All || page != 1) ==> r == []
    ensures category == All && page == 1 ==>
              |r| == Min(FeaturedShown, |Featured(projects)|) && r <= Featured(projects)
  {
    if category == All && page == 1 then
      var f := Featured(projects);
      var r := f[..Min(FeaturedShown, |f|)];
      assert forall p :: p in r ==> p in f;
      r
    else []
  }

  // ---------------------------------------------------------------------------
  // Pagination
  // ---------------------------------------------------------------------------

  /** The number of pages: the count divided by six, rounded up. */
  function TotalPages(count: nat): (t: nat)
    ensures count == 0 ==> t == 0
    ensures 0 < count ==> (t - 1) * ProjectsPerPage < count <= t * ProjectsPerPage
  {
    (count + ProjectsPerPage - 1) / ProjectsPerPage
  }

  /** The six projects of page `page` (numbered from 1), fewer on the last page and none past it. */
  function Page(s: seq<Project>, page: int): (r: seq<Project>)
    requires 1 <= page
    ensures |r| <= ProjectsPerPage
    ensures r == s[Min((page - 1) * ProjectsPerPage, |s|)..Min(page * ProjectsPerPage, |s|)]
  {
    s[Min((page - 1) * ProjectsPerPage, |s|)..Min(page * ProjectsPerPage, |s|)]
  }

  /** A page is empty exactly when its number is past the last page. */
  lemma PageEmptyIff(s: seq<Project>, page: int)
    requires 1 <= page
    ensures Page(s, page) == [] <==> TotalPages(|s|) < page
  {
    var t := TotalPages(|s|);
    if page <= t {
      assert (page - 1) * ProjectsPerPage <= (t - 1) * ProjectsPerPage;
      assert Page(s, page)[0] == s[(page - 1) * ProjectsPerPage];
    } else {
      assert t * ProjectsPerPage <= (page - 1) * ProjectsPerPage;
    }
  }

  /** Pages `from`, `from + 1`, ..., `from + count - 1`, concatenated. */
  function Pages(s: seq<Project>, from: int, count: nat): seq<Project>
    requires 1 <= from
    decreases count
  {
    if count == 0 then [] else Page(s, from) + Pages(s, from + 1, count - 1)
  }

  /** Enough pages from page `from` on cover the rest of the list from that page's start. */
  lemma {:induction false} PagesCoverSuffix(s: seq<Project>, from: int, count: nat)
    requires 1 <= from && |s| <= (from - 1 + count) * ProjectsPerPage
    ensures Pages(s, from, count) == s[Min((from - 1) * ProjectsPerPage, |s|)..]
    decreases count
  {
    if count != 0 {
      PagesCoverSuffix(s, from + 1, count - 1);
      var a := Min((from - 1) * ProjectsPerPage, |s|);
      var b := Min(from * ProjectsPerPage, |s|);
      assert s[a..] == s[a..b] + s[b..];
    }
  }

  /** Pages 1 to `totalPages`, concatenated, give back the filtered list. */
  lemma AllPagesConcatenate(s: seq<Project>)
    ensures Pages(s, 1, TotalPages(|s|)) == s
  {
    PagesCoverSuffix(s, 1, TotalPages(|s|));
  }

  /** Whether the pagination controls are drawn. */
  predicate ShowsPagination(totalPages: nat) {
    totalPages > 1
  }

  /** The controls are drawn exactly when the filtered list does not fit on one page. */
  lemma PaginationIffOverflow(count: nat)
    ensures ShowsPagination(TotalPages(count)) <==> count > ProjectsPerPage
  {
  }

  /**
   * With a current page that is 1 or within range, the empty-state message
   * appears exactly when the category has no projects.
   */
  lemma EmptyStateIffNoProjects(projects: seq<Project>, category: Category, page: int)
    requires 1 <= page
    requires page == 1 || page <= TotalPages(|Filtered(projects, category)|)
    ensures Page(Filtered(projects, category), page) == [] <==> Filtered(projects, category) == []
  {
    PageEmptyIff(Filtered(projects, category), page);
  }

  // ---------------------------------------------------------------------------
  // The component's state
  // ---------------------------------------------------------------------------

  /** `Projects`: the active category and the current page. */
  class ProjectsView {
    const projects: seq<Project>
    var activeCategory: Category
    var currentPage: int

    function TotalPagesNow(): nat
      reads this
    {
      TotalPages(|Filtered(projects, activeCategory)|)
    }

    /** The current page is at least 1, and within range unless it is page 1. */
    ghost predicate Valid()
      reads this
    {
      1 <= currentPage && (currentPage == 1 || currentPage <= TotalPagesNow())
    }

    /** The projects in the grid. */
    function Paginated(): (r: seq<Project>)
      reads this
      requires Valid()
      ensures |r| <= ProjectsPerPage
      ensures r == Page(Filtered(projects, activeCategory), currentPage)
      ensures r == [] <==> Filtered(projects, activeCategory) == []
    {
      EmptyStateIffNoProjects(projects, activeCategory, currentPage);
      Page(Filtered(projects, activeCategory), currentPage)
    }

    constructor ()
      ensures projects == Catalog() && activeCategory == All && currentPage == 1 && Valid()
    {
      projects := Catalog();
      activeCategory := All;
      currentPage := 1;
    }

    /** `handleCategoryChange`: switches category and goes back to page 1. */
    method HandleCategoryChange(category: Category)
      modifies this
      ensures activeCategory == category && currentPage == 1 && Valid()
    {
      activeCategory := category;
      currentPage := 1;
    }

    /** `handlePageChange`, as the page buttons and the guarded arrows call it. */
    method HandlePageChange(page: int)
      requires 1 <= page <= TotalPagesNow()
      modifies this
      ensures currentPage == page && activeCategory == old(activeCategory) && Valid()
    {
      currentPage := page;
    }

    /** The numbered button `index + 1`. */
    method ClickPageButton(index: int)
      requires 0 <= index < TotalPagesNow()
      modifies this
      ensures currentPage == index + 1 && activeCategory == old(activeCategory) && Valid()
    {
      HandlePageChange(index + 1);
    }

    /** The previous-page arrow: moves back only from a page after the first. */
    method ClickPrevious()
      requires Valid()
      modifies this
      ensures Valid() && activeCategory == old(activeCategory)
      ensures currentPage == if old(currentPage) > 1 then old(currentPage) - 1 else old(currentPage)
    {
      if currentPage > 1 {
        HandlePageChange(currentPage - 1);
      }
    }

    /** The next-page arrow: moves on only from a page before the last. */
    method ClickNext()
      requires Valid()
      modifies this
      ensures Valid() && activeCategory == old(activeCategory)
      ensures currentPage == if old(currentPage) < TotalPagesNow() then old(currentPage) + 1 else old(currentPage)
    {
      if currentPage < TotalPagesNow() {
        HandlePageChange(currentPage + 1);
      }
    }
  }
}
