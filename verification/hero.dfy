/**
 * The hero section: classification of the social links as external, the
 * attributes that follows from it, and the buttons that scroll to sections.
 */
module Hero {
  import opened Js

  /** `href.startsWith("http")`. */
  predicate IsExternal(href: string)
    ensures IsExternal(href) <==> 4 <= |href| && href[0] == 'h' && href[1] == 't' && href[2] == 't' && href[3] == 'p'
  {
    StartsWith(href, "http")
  }

  /** Web addresses are external; mail links are not. */
  lemma ExternalBySchemes(rest: string)
    ensures IsExternal("https://" + rest)
    ensures IsExternal("http://" + rest)
    ensures !IsExternal("mailto:" + rest)
  {
    assert ("https://" + rest)[..4] == "http";
    assert ("http://" + rest)[..4] == "http";
    assert ("mailto:" + rest)[0] == 'm';
  }

  /** The rendered attributes of a social link. */
  datatype Anchor = Anchor(href: string, target: Nullable<string>, rel: Nullable<string>)

  function SocialAnchor(href: string): (a: Anchor)
    ensures a.href == href
    ensures a.target.Value? <==> IsExternal(href)
    ensures a.rel.Value? <==> IsExternal(href)
    ensures a.target.Value? ==> a.target.value == "_blank"
    ensures a.rel.Value? ==> a.rel.value == "noopener noreferrer"
  {
    if IsExternal(href) then Anchor(href, Value("_blank"), Value("noopener noreferrer"))
    else Anchor(href, Null, Null)
  }

  const SocialLinks: seq<string> := [
    "https://github.com/metadel12",
    "https://linkedin.com/in/metadel-abere",
    "mailto:metizomawa@gmail.com"
  ]

  /** GitHub and LinkedIn open in a new tab; the mail link does not. */
  lemma SocialLinksClassified()
    ensures SocialAnchor(SocialLinks[0]).target == Value("_blank")
    ensures SocialAnchor(SocialLinks[1]).target == Value("_blank")
    ensures SocialAnchor(SocialLinks[2]).target.Null? && SocialAnchor(SocialLinks[2]).rel.Null?
  {
    assert SocialLinks[0][..4] == "http";
    assert SocialLinks[1][..4] == "http";
    assert SocialLinks[2][0] == 'm';
  }

  /** The document as far as scrolling goes: the ids present, and the
      section last scrolled into view. */
  datatype Viewport = Viewport(ids: set<string>, scrolledTo: Nullable<string>)

  /** `handleScrollToSection` (and `scrollToAbout`, which behaves alike):
      scroll to the element if it exists, do nothing otherwise. */
  function ScrollToSection(v: Viewport, id: string): (r: Viewport)
    ensures r.ids == v.ids
    ensures id in v.ids ==> r.scrolledTo == Value(id)
    ensures id !in v.ids ==> r == v
  {
    if id in v.ids then v.(scrolledTo := Value(id)) else v
  }

  datatype Button = ViewMyWork | GetInTouch

  function Target(b: Button): string
  {
    match b
    case ViewMyWork => "projects"
    case GetInTouch => "contact"
  }

  /** The two buttons lead to different sections: projects and contact; a
      click is a no-op on a page without that section. */
  lemma ButtonsScroll(v: Viewport, b: Button)
    ensures Target(ViewMyWork) != Target(GetInTouch)
    ensures "projects" in v.ids ==> ScrollToSection(v, Target(ViewMyWork)).scrolledTo == Value("projects")
    ensures "contact" in v.ids ==> ScrollToSection(v, Target(GetInTouch)).scrolledTo == Value("contact")
    ensures Target(b) !in v.ids ==> ScrollToSection(v, Target(b)) == v
  {
  }
}
