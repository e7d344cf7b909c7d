/**
 * The skills section: the hovered category card, the level bars drawn for
 * each skill and the proficiency meters.
 */
module Skills {
  import opened Js
  import opened Seqs

  /** A category card; the colour depends on the theme. */
  datatype Category = Category(title: string, skills: seq<string>, color: string)

  function Categories(darkMode: bool): seq<Category>
  {
    [ Category("Frontend Development",
        ["React/Next.js", "Vue.js/Nuxt.js", "TypeScript", "JavaScript ES6+", "Tailwind CSS", "Three.js"],
        if darkMode then "#60a5fa" else "#3b82f6"),
      Category("Backend & APIs",
        ["Node.js/Express", "Python/Django", "REST APIs", "GraphQL", "WebSockets", "Serverless"],
        if darkMode then "#34d399" else "#10b981"),
      Category("Database & DevOps",
        ["MongoDB", "PostgreSQL", "Docker", "AWS", "CI/CD", "Jest/Testing"],
        if darkMode then "#a78bfa" else "#8b5cf6")
    ]
  }

  /** No two cards share a title (titles are the cards' keys). */
  predicate DistinctTitles(cs: seq<Category>)
  {
    forall i, j :: 0 <= i < j < |cs| ==> cs[i].title != cs[j].title
  }

  /** Card titles are distinct (they are the cards' keys), each card lists six
      distinct skills (the skills are keys too). */
  lemma CategoriesWellFormed(darkMode: bool)
    ensures DistinctTitles(Categories(darkMode))
    ensures forall i :: 0 <= i < |Categories(darkMode)| ==> |Categories(darkMode)[i].skills| == 6
    ensures forall i :: 0 <= i < |Categories(darkMode)| ==> Distinct(Categories(darkMode)[i].skills)
  {
  }

  /** The hovered card's title, `null` when no card is hovered. */
  datatype State = State(activeCategory: Nullable<string>)

  function Initial(): (s: State)
    ensures forall title: string :: !IsActive(s, title)
  {
    State(Null)
  }

  /** `isActive` for the card with the given title. */
  predicate IsActive(s: State, title: string)
    ensures s.activeCategory.Null? ==> !IsActive(s, title)
    ensures IsActive(s, title) ==> s.activeCategory.value == title
  {
    s.activeCategory == Value(title)
  }

  /** A card's enter and leave handlers call `onHover` with its title, then with `null`. */
  datatype Hover = Enter(title: string) | Leave

  function OnHover(s: State, h: Hover): (r: State)
    ensures h.Enter? ==> forall t :: IsActive(r, t) <==> t == h.title
    ensures h.Leave? ==> forall t :: !IsActive(r, t)
  {
    match h
    case Enter(t) => State(Value(t))
    case Leave => State(Null)
  }

  /** Whatever the state, no two cards with distinct titles are active at once. */
  lemma AtMostOneActive(s: State, cs: seq<Category>)
    requires DistinctTitles(cs)
    ensures forall i, j :: 0 <= i < |cs| && 0 <= j < |cs| && IsActive(s, cs[i].title) && IsActive(s, cs[j].title) ==> i == j
  {
  }

  /** Width, in percent, of the level bar of the skill at `skillIndex`. */
  function LevelWidth(skillIndex: nat): (w: nat)
    ensures w >= 80
    ensures w <= 100 <==> skillIndex <= 6
  {
    80 + skillIndex * 3
  }

  /** All the bars of a card with `n` skills fit in their track exactly when
      the card has at most seven skills. */
  lemma LevelBarsFit(n: nat)
    ensures (forall i :: 0 <= i < n ==> LevelWidth(i) <= 100) <==> n <= 7
  {
    if n > 7 {
      assert LevelWidth(7) == 101;
    }
  }

  /** With six skills per card every bar is between 80% and 95% wide. */
  lemma CardBarsBounded(darkMode: bool, c: nat, i: nat)
    requires c < |Categories(darkMode)| && i < |Categories(darkMode)[c].skills|
    ensures 80 <= LevelWidth(i) <= 95
  {
    CategoriesWellFormed(darkMode);
  }

  /** The proficiency meters. */
  datatype Meter = Meter(skill: string, percentage: int)

  const Proficiency: seq<Meter> := [
    Meter("React & Next.js", 95),
    Meter("Node.js & Express", 90),
    Meter("TypeScript", 88),
    Meter("MongoDB", 85),
    Meter("AWS & DevOps", 80),
    Meter("Three.js & WebGL", 75)
  ]

  /** Every meter fills a valid share of its track, and they are listed from
      the highest percentage down. */
  lemma ProficiencyBounded()
    ensures forall i :: 0 <= i < |Proficiency| ==> 0 <= Proficiency[i].percentage <= 100
    ensures forall i, j :: 0 <= i < j < |Proficiency| ==> Proficiency[i].percentage > Proficiency[j].percentage
  {
  }

  /** The colour a card title is animated to: the card's colour on enter, the
      theme's text colour on leave. */
  function TitleColor(h: Hover, c: Category, darkMode: bool): (r: string)
    ensures h.Enter? ==> r == c.color
  {
    match h
    case Enter(_) => c.color
    case Leave => if darkMode then "#e5e7eb" else "#374151"
  }

  /** On leave the colour depends only on the theme, never on the card, and
      differs between the themes. */
  lemma LeaveColorIsThemeColor(c1: Category, c2: Category)
    ensures TitleColor(Leave, c1, true) == TitleColor(Leave, c2, true)
    ensures TitleColor(Leave, c1, false) == TitleColor(Leave, c2, false)
    ensures TitleColor(Leave, c1, true) != TitleColor(Leave, c1, false)
  {
  }
}
