/**
 * The projects section: the hard-coded catalogue, the invariants its render
 * code depends on, the category filter and the filter buttons' active class.
 */
module Projects {
  import opened Seqs
  import Cursor

  /** One catalogue entry; copy text, links and images are left out. The
      colour list depends on the theme, one colour per technology. */
  datatype Project = Project(id: int, title: string, techStack: seq<string>, techColors: seq<string>, category: string, featured: bool)

  const All := "All"

  /** The filter buttons, in display order. */
  const Categories: seq<string> := ["All", "Full Stack", "Frontend", "Backend", "Mobile", "3D Web"]

  /** The catalogue as rendered under the given theme. */
  function Catalog(darkMode: bool): seq<Project>
  {
    [ Project(1, "Kallos Coffee", ["React", "Node.js", "MongoDB", "Stripe", "JWT", "Redux"],
        if darkMode then ["#60a5fa", "#34d399", "#a78bfa", "#818cf8", "#f472b6", "#fbbf24"]
        else ["#3b82f6", "#10b981", "#8b5cf6", "#6366f1", "#ec4899", "#f59e0b"],
        "Full Stack", true),
      Project(2, "Ethio Code", ["Vue.js", "Express", "Socket.io", "PostgreSQL", "Redis"],
        if darkMode then ["#34d399", "#60a5fa", "#a78bfa", "#22d3ee", "#ef4444"]
        else ["#10b981", "#3b82f6", "#8b5cf6", "#06b6d4", "#dc2626"],
        "Full Stack", true),
      Project(3, "Car Shop", ["React", "D3.js", "Weather API", "Chart.js", "Leaflet"],
        if darkMode then ["#a78bfa", "#60a5fa", "#22d3ee", "#34d399", "#84cc16"]
        else ["#8b5cf6", "#3b82f6", "#06b6d4", "#10b981", "#84cc16"],
        "Frontend", false),
      Project(4, "3D Portfolio Website", ["Three.js", "React", "GSAP", "Framer Motion", "WebGL"],
        if darkMode then ["#f472b6", "#a78bfa", "#60a5fa", "#22d3ee", "#fbbf24"]
        else ["#ec4899", "#8b5cf6", "#3b82f6", "#06b6d4", "#f59e0b"],
        "3D Web", true),
      Project(5, "API Management System", ["Node.js", "Express", "MongoDB", "Redis", "Docker"],
        if darkMode then ["#fbbf24", "#ef4444", "#34d399", "#60a5fa", "#a78bfa"]
        else ["#f59e0b", "#dc2626", "#10b981", "#3b82f6", "#8b5cf6"],
        "Backend", false),
      Project(6, "Mobile Fitness App", ["React Native", "Firebase", "Node.js", "MongoDB", "Expo"],
        if darkMode then ["#ef4444", "#34d399", "#60a5fa", "#a78bfa", "#fbbf24"]
        else ["#dc2626", "#10b981", "#3b82f6", "#8b5cf6", "#f59e0b"],
        "Mobile", true),
      Project(7, "Task Management App", ["React", "TypeScript", "Node.js", "MongoDB", "GraphQL"],
        if darkMode then ["#8b5cf6", "#06b6d4", "#84cc16", "#f97316", "#ec4899"]
        else ["#7c3aed", "#0891b2", "#65a30d", "#ea580c", "#db2777"],
        "Full Stack", false),
      Project(8, "E-commerce Analytics", ["Python", "Django", "React", "PostgreSQL", "TensorFlow"],
        if darkMode then ["#06b6d4", "#8b5cf6", "#84cc16", "#f97316", "#ec4899"]
        else ["#0891b2", "#7c3aed", "#65a30d", "#ea580c", "#db2777"],
        "Backend", true)
    ]
  }

  /** `techColors[techIndex]` is defined for every technology of every project. */
  predicate ColorsMatchStack(ps: seq<Project>)
  {
    forall i :: 0 <= i < |ps| ==> |ps[i].techColors| == |ps[i].techStack|
  }

  /** Project ids are usable as list keys. */
  predicate DistinctIds(ps: seq<Project>)
  {
    forall i, j :: 0 <= i < j < |ps| ==> ps[i].id != ps[j].id
  }

  /** Technology names are usable as keys within each card. */
  predicate DistinctTech(ps: seq<Project>)
  {
    forall i :: 0 <= i < |ps| ==> Distinct(ps[i].techStack)
  }

  /** Every project falls under one of the given categories. */
  predicate Categorised(ps: seq<Project>, cats: seq<string>)
  {
    forall i :: 0 <= i < |ps| ==> ps[i].category in cats
  }

  /** The catalogue has eight projects, with ids 1 to 8 in order. */
  lemma CatalogIds(darkMode: bool)
    ensures |Catalog(darkMode)| == 8
    ensures forall i :: 0 <= i < 8 ==> Catalog(darkMode)[i].id == i + 1
  {
  }

  /** The invariants the render code relies on hold of the catalogue under
      both themes, and no project is filed under "All". */
  lemma CatalogWellFormed(darkMode: bool)
    ensures ColorsMatchStack(Catalog(darkMode))
    ensures DistinctIds(Catalog(darkMode))
    ensures DistinctTech(Catalog(darkMode))
    ensures Categorised(Catalog(darkMode), Categories[1..])
    ensures forall i :: 0 <= i < |Catalog(darkMode)| ==> Catalog(darkMode)[i].category != All
  {
    CatalogIds(darkMode);
    var ps := Catalog(darkMode);
    forall i | 0 <= i < |ps| ensures Distinct(ps[i].techStack) {
      var t := ps[i].techStack;
      forall a, b | 0 <= a < b < |t| ensures t[a] != t[b] {
        assert i in {0, 1, 2, 3, 4, 5, 6, 7};
      }
    }
  }

  /** The filter buttons are distinct, so at most one of them is active. */
  lemma CategoriesDistinct()
    ensures Distinct(Categories)
    ensures Categories[0] == All
  {
  }

  /** `projects.filter(project => project.category === c)`. */
  function KeepCategory(ps: seq<Project>, c: string): (r: seq<Project>)
    ensures |r| <= |ps|
    ensures forall p :: p in r <==> p in ps && p.category == c
    ensures forall p :: Count(r, p) == (if p.category == c then Count(ps, p) else 0)
  {
    if |ps| == 0 then []
    else
      assert forall p :: p in ps <==> p == ps[0] || p in ps[1..];
      var rest := KeepCategory(ps[1..], c);
      if ps[0].category == c then
        CountCons(ps[0], rest);
        [ps[0]] + rest
      else
        rest
  }

  /** The filter keeps the surviving projects in catalogue order. */
  lemma {:induction false} KeepCategoryIsSubsequence(ps: seq<Project>, c: string)
    ensures Subsequence(KeepCategory(ps, c), ps)
  {
    if |ps| > 0 {
      KeepCategoryIsSubsequence(ps[1..], c);
      var r := KeepCategory(ps, c);
      if ps[0].category == c {
        assert r[0] == ps[0] && r[1..] == KeepCategory(ps[1..], c);
      } else {
        assert r == KeepCategory(ps[1..], c);
        if |r| > 0 {
          assert r[0] in r;
        }
      }
    }
  }

  /** `filteredProjects`: "All" shows everything; any other category shows
      exactly its projects, in catalogue order. */
  function Filtered(ps: seq<Project>, active: string): (r: seq<Project>)
    ensures active == All ==> r == ps
    ensures active != All ==> forall p :: p in r <==> p in ps && p.category == active
    ensures active != All ==> forall p :: Count(r, p) == (if p.category == active then Count(ps, p) else 0)
    ensures Subsequence(r, ps)
  {
    if active == All then
      SubsequenceOfSelf(ps);
      ps
    else
      KeepCategoryIsSubsequence(ps, active);
      KeepCategory(ps, active)
  }

  /** The filter's result sizes over a list of categories. */
  function SumFiltered(ps: seq<Project>, cats: seq<string>): nat
  {
    if |cats| == 0 then 0 else |KeepCategory(ps, cats[0])| + SumFiltered(ps, cats[1..])
  }

  /** Adding one project to the front adds one to the filter of every
      category occurrence that names it. */
  lemma {:induction false} SumFilteredFront(ps: seq<Project>, cats: seq<string>)
    requires |ps| > 0
    ensures SumFiltered(ps, cats) == Count(cats, ps[0].category) + SumFiltered(ps[1..], cats)
  {
    if |cats| > 0 {
      SumFilteredFront(ps, cats[1..]);
    }
  }

  /** When every project's category occurs exactly once in `cats`, the
      per-category filters split the list: their sizes add up to its length. */
  lemma {:induction false} FiltersPartition(ps: seq<Project>, cats: seq<string>)
    requires Distinct(cats)
    requires Categorised(ps, cats)
    ensures SumFiltered(ps, cats) == |ps|
  {
    if |ps| == 0 {
      EmptySum(cats);
    } else {
      SumFilteredFront(ps, cats);
      CountInDistinct(cats, ps[0].category);
      assert Categorised(ps[1..], cats) by {
        forall i | 0 <= i < |ps[1..]| ensures ps[1..][i].category in cats {
          assert ps[1..][i] == ps[i + 1];
        }
      }
      FiltersPartition(ps[1..], cats);
    }
  }

  lemma {:induction false} EmptySum(cats: seq<string>)
    ensures SumFiltered([], cats) == 0
  {
    if |cats| > 0 {
      EmptySum(cats[1..]);
    }
  }

  /** The five concrete categories split the eight projects between them. */
  lemma CatalogPartition(darkMode: bool)
    ensures SumFiltered(Catalog(darkMode), Categories[1..]) == 8
  {
    CatalogWellFormed(darkMode);
    assert Distinct(Categories[1..]);
    FiltersPartition(Catalog(darkMode), Categories[1..]);
  }

  /** The section's state: the selected filter, "All" at first. */
  datatype Section = Section(activeCategory: string)

  /** At first the filter is the identity: every list is shown whole. */
  function Initial(): (s: Section)
    ensures s.activeCategory == All
    ensures forall ps :: Filtered(ps, s.activeCategory) == ps
  {
    Section(All)
  }

  /** `handleFilterChange`: the clicked category becomes the active one,
      whatever was active before; clicking "All" makes the filter the identity. */
  function SelectCategory(s: Section, category: string): (r: Section)
    ensures r.activeCategory == category
    ensures category == All ==> forall ps :: Filtered(ps, r.activeCategory) == ps
  {
    Section(category)
  }

  /** The cards shown for a state under a theme. */
  function Visible(s: Section, darkMode: bool): seq<Project>
  {
    Filtered(Catalog(darkMode), s.activeCategory)
  }

  /** After a click on a category other than "All" the grid shows exactly that
      category's projects, in catalogue order; after "All", every project. */
  lemma SelectShowsCategory(s: Section, category: string, darkMode: bool)
    ensures SelectCategory(s, category).activeCategory == category
    ensures var shown := Visible(SelectCategory(s, category), darkMode);
            && Subsequence(shown, Catalog(darkMode))
            && (category == All ==> shown == Catalog(darkMode))
            && (category != All ==> forall p :: p in shown <==> p in Catalog(darkMode) && p.category == category)
  {
  }

  /** Class tokens of one filter button. */
  function FilterButtonClasses(category: string, active: string, darkMode: bool): (r: seq<string>)
    ensures "filter-btn-active" in r <==> active == category
    ensures "filter-btn" in r
  {
    ["filter-btn"] + (if active == category then ["filter-btn-active"] else [])
      + [if darkMode then "filter-btn-dark" else "filter-btn-light"]
  }

  /** How many of the given buttons carry the active class. */
  function ActiveButtons(cats: seq<string>, active: string, darkMode: bool): (n: nat)
    ensures n == Count(cats, active)
  {
    if |cats| == 0 then 0
    else
      (if "filter-btn-active" in FilterButtonClasses(cats[0], active, darkMode) then 1 else 0)
        + ActiveButtons(cats[1..], active, darkMode)
  }

  /** Exactly one filter button is highlighted when the active category is one
      of the buttons, and none otherwise. */
  lemma OneActiveButton(active: string, darkMode: bool)
    ensures ActiveButtons(Categories, active, darkMode) == (if active in Categories then 1 else 0)
  {
    CategoriesDistinct();
    CountInDistinct(Categories, active);
  }

  /** Hovering cards, filter buttons or the call to action from the default
      cursor only ever shows the default or the button cursor. */
  lemma HoverOnlyButtonOrDefault(s: Cursor.State, hs: seq<Cursor.Hover>)
    requires s.variant == "default"
    ensures Cursor.Hovers(s, hs).variant != "text" && Cursor.Hovers(s, hs).variant != "hidden"
  {
    Cursor.HoverLastWins(s, hs);
  }
}
