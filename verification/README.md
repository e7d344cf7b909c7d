# Portfolio site client state, modelled in Dafny

A model of the client-side state of a single-page personal portfolio site
(React): the dark/light theme owned by `App` (resolved from a saved
preference or the operating system's, written through to `localStorage`
under `portfolio-theme`, mirrored by two mutually exclusive classes on the
document root), the shared custom-cursor state of `CursorProvider` (a
variant name and the last pointer position, plus the table of presets per
variant), the projects section's category filter and the invariants of its
hard-coded catalogue, the header's mobile menu and 768px breakpoint, the
skills section's hovered card and level bars, and the hero's link
classification and scroll buttons.

Browser objects are replaced by values: `localStorage` is a
`map<string, string>`, the root element's classes a `set<string>`, the
`prefers-color-scheme` query a `MediaQuery` (absent, or its `matches`), the
document a set of element ids. Every event handler is one pure transition
on an immutable record; runs of events are folds over `seq`s of events.
`className` template strings are modelled as their sequences of class
tokens (an empty branch contributes no class).

Modules, one per component:

- `Js` — nullable values, throwing calls, `startsWith`, conditional class tokens.
- `Seqs` — `Count`, `Distinct`, order-preserving `Subsequence`.
- `Theme` — `client/src/App.jsx`.
- `Cursor` — `client/src/components/context/CursorContext.jsx`, and the
  enter/leave handler pair that cards, buttons and links attach.
- `Projects` — `client/src/components/sections/Projects.jsx`.
- `Header` — `client/src/components/layout/Header.jsx`.
- `Skills` — `client/src/components/sections/Skills.jsx`.
- `Hero` — `client/src/components/sections/Hero.jsx`.

The `darkMode` state is modelled as a JavaScript value `Flag = False | True |
Undefined`: when `window.matchMedia` is missing, `window.matchMedia && …`
evaluates to `undefined`, and that is what `setDarkMode` receives. Every
later use is a truthiness test, so `Undefined` behaves as light, and
`!undefined` is `true`.

## Model

| member | source | states |
|---|---|---|
| `Theme.SystemPrefersDark` | client/src/App.jsx:18 | dark only when `matchMedia` exists and matches; the value is `undefined` exactly when `matchMedia` is missing |
| `Theme.Lookup` | client/src/App.jsx:21 | reading the saved theme yields a value exactly when the key is present, and then the stored string |
| `Theme.ResolveInitial` | client/src/App.jsx:16-28 | a truthy saved string decides (dark iff it is exactly "dark", never undefined); otherwise dark iff the OS query exists and matches |
| `Theme.SavedThemeWins` | client/src/App.jsx:21-24 | a non-empty saved theme gives the same result under every OS preference, dark iff it is "dark" |
| `Theme.MissingSavedFollowsSystem` | client/src/App.jsx:23-26 | an absent or empty saved theme falls back to the OS preference; a missing `matchMedia` resolves to light |
| `Theme.Not` | client/src/App.jsx:45 | `!darkMode` is a boolean, flips the theme and always differs from the old value, so the write-through effect always re-runs |
| `Theme.ThemeName` | client/src/App.jsx:32 | the stored word is never empty and is "dark" exactly for the dark theme |
| `Theme.SyncWrite` | client/src/App.jsx:32 | the effect writes key `portfolio-theme`, with "dark" iff the state is dark |
| `Theme.Sync` | client/src/App.jsx:30-42 | afterwards storage and root classes mirror the state (exactly one theme class, the matching one); other storage keys and other root classes are untouched |
| `Theme.SyncedIsFixpoint` | client/src/App.jsx:30-42 | re-running the effect on a synchronised page changes nothing |
| `Theme.Toggle` | client/src/App.jsx:44-46 | the theme flips, the page ends synchronised, other root classes are kept |
| `Theme.ToggleParity` | client/src/App.jsx:44-46 | after n toggles the theme is the original for even n and the opposite for odd n, and synchronised for n > 0 |
| `Theme.ToggleTwiceRestores` | client/src/App.jsx:44-46 | on a synchronised page holding a boolean, two toggles restore state, storage and classes exactly |
| `Theme.Mount` | client/src/App.jsx:14-42 | mounting reads the key first, then writes the initial "light", then writes the resolved theme exactly when it differs from false; the final state is the resolved value, the page is synchronised and storage holds the last write |
| `Theme.ReloadKeepsTheme` | client/src/App.jsx:21-32 | mounting again over the storage a mount left behind restores the same theme whatever the OS now prefers |
| `Theme.MountPreservesSavedTheme` | client/src/App.jsx:21-32 | the initial write of "light" does not clobber a saved theme: after mount storage says "dark" iff "dark" was saved |
| `Theme.AppClasses` | client/src/App.jsx:50 | the wrapper carries `app`, and `dark-theme` iff dark, `light-theme` iff not |
| `Theme.WrapperAgreesWithRoot` | client/src/App.jsx:35-50 | on a synchronised page the wrapper and the document root carry the same theme class |
| `Cursor.Parse` | client/src/components/context/CursorContext.jsx:37-65 | a name finds the variant whose table key it is, and names outside the four keys find nothing |
| `Cursor.ParseName` | client/src/components/context/CursorContext.jsx:37-65 | every variant is found under its own key |
| `Cursor.Initial` | client/src/components/context/CursorContext.jsx:18-19 | the cursor starts as the default variant at (0, 0) |
| `Cursor.MouseMove` | client/src/components/context/CursorContext.jsx:22-27 | the position becomes exactly (clientX, clientY); the variant is unchanged |
| `Cursor.SetVariant` | client/src/components/context/CursorContext.jsx:18 | the given name is stored unvalidated; the position is unchanged |
| `Cursor.LastMoveWins` | client/src/components/context/CursorContext.jsx:21-34 | after any run of moves the position is the last event's, with no smoothing, and the variant is untouched |
| `Cursor.Resolve` | client/src/components/context/CursorContext.jsx:37-65 | a preset's position plus the variant's offset gives back the pointer on both axes; scale, blend and colour come from the variant |
| `Cursor.OnlyHiddenIsInvisible` | client/src/components/context/CursorContext.jsx:59-64 | hidden is the only variant at scale 0 and the only one without a blend mode; the others are at scale 1 or more |
| `Cursor.DifferenceBlendVariants` | client/src/components/context/CursorContext.jsx:42-57 | default and text blend by difference, only button (scale 1.5) blends normally |
| `Cursor.Offset` | client/src/components/context/CursorContext.jsx:37-64 | offsets lie in 16..40; default and hidden share the smallest, 16, and text alone has the largest, 40 |
| `Cursor.Scale` | client/src/components/context/CursorContext.jsx:43-63 | scales lie in 0..2; hidden alone is at 0 and text alone at 2 |
| `Cursor.BlendMode` | client/src/components/context/CursorContext.jsx:42-64 | hidden alone sets no blend mode and button alone blends normally |
| `Cursor.CurrentPreset` | client/src/components/context/CursorContext.jsx:37-72 | the cursor has a preset exactly when its stored name is one of the four keys, and it is that variant's preset at the pointer, centred on both axes |
| `Cursor.DefaultCursorAt120x80` | client/src/components/context/CursorContext.jsx:38-44 | a pointer at (120, 80) under the default variant draws the cursor at (104, 64), scale 1, difference blend |
| `Cursor.UseCursor` | client/src/components/context/CursorContext.jsx:8-14 | outside a provider the hook throws its error message; inside it returns the provider's state |
| `Cursor.OnHover` | client/src/components/sections/Projects.jsx:95-96 | entering selects the button variant, leaving the default one; the position is kept (same handlers at Projects.jsx 230-231 and 508-509, Hero.jsx 227-228, 238-239, 263-264) |
| `Cursor.HoverLastWins` | client/src/components/sections/Projects.jsx:230-231 | after hover events the variant reflects only the last event, the position is untouched, and only default/button are ever reached |
| `Cursor.NestedHoverResets` | client/src/components/context/CursorContext.jsx:18 | with one shared variant, enter, enter, leave ends at the default cursor |
| `Projects.CatalogIds` | client/src/components/sections/Projects.jsx:253-350 | the catalogue has eight projects with ids 1 to 8 in order |
| `Projects.CatalogWellFormed` | client/src/components/sections/Projects.jsx:159-165 | under both themes every project has one colour per technology, ids are distinct, technology names are distinct within a card, and every category is one of the five non-"All" filters |
| `Projects.CategoriesDistinct` | client/src/components/sections/Projects.jsx:250 | the filter categories are distinct and the first is "All" |
| `Projects.KeepCategory` | client/src/components/sections/Projects.jsx:354 | the result holds exactly the projects of the given category, each as many times as in the input, and no others |
| `Projects.KeepCategoryIsSubsequence` | client/src/components/sections/Projects.jsx:354 | the filtered list keeps catalogue order |
| `Projects.Filtered` | client/src/components/sections/Projects.jsx:352-354 | "All" gives the full list unchanged; any other category gives exactly its projects with their multiplicities; always an order-preserving subsequence |
| `Projects.FiltersPartition` | client/src/components/sections/Projects.jsx:352-354 | when each project's category occurs once among distinct categories, the filters' sizes add up to the list's length |
| `Projects.CatalogPartition` | client/src/components/sections/Projects.jsx:250-350 | the five non-"All" filters together show all eight projects, each once |
| `Projects.Initial` | client/src/components/sections/Projects.jsx:248 | the section starts on "All", a filter that shows any list whole, in order |
| `Projects.SelectCategory` | client/src/components/sections/Projects.jsx:397-399 | a filter click makes the clicked category active whatever was active before; clicking "All" makes the filter the identity |
| `Projects.SelectShowsCategory` | client/src/components/sections/Projects.jsx:352-399 | a filter click makes the clicked category active, and the grid then shows exactly its projects in catalogue order, or everything for "All" |
| `Projects.FilterButtonClasses` | client/src/components/sections/Projects.jsx:228 | a button carries `filter-btn-active` iff its category is the active one |
| `Projects.ActiveButtons` | client/src/components/sections/Projects.jsx:225-237 | the number of highlighted buttons equals the number of buttons labelled with the active category |
| `Projects.OneActiveButton` | client/src/components/sections/Projects.jsx:225-250 | exactly one button is highlighted when the active category is listed, none otherwise |
| `Projects.HoverOnlyButtonOrDefault` | client/src/components/sections/Projects.jsx:508-509 | from the default cursor, the section's hover handlers never select the text or hidden variant |
| `Header.Initial` | client/src/components/layout/Header.jsx:7-8 | the header starts on desktop with the menu closed |
| `Header.CheckScreenSize` | client/src/components/layout/Header.jsx:11-13 | mobile iff the width is at most 768 (768 included); the menu is left as it is |
| `Header.ToggleMobileMenu` | client/src/components/layout/Header.jsx:34-37 | the menu's open state flips; the mobile flag is kept |
| `Header.CloseMenu` | client/src/components/layout/Header.jsx:23-32 | logo and navigation clicks close the menu from any state |
| `Header.ToggleTwiceRestores` | client/src/components/layout/Header.jsx:34-37 | two toggles restore the state |
| `Header.CloseIsIdempotent` | client/src/components/layout/Header.jsx:23-32 | closing twice is closing once |
| `Header.RunFromInitial` | client/src/components/layout/Header.jsx:10-37 | after any events the menu is open iff an odd number of toggles followed the last close, and mobile iff the latest width seen is at most 768 |
| `Header.HeaderClasses` | client/src/components/layout/Header.jsx:40 | the header carries `dark-mode` iff the theme is dark |
| `Header.MenuClasses` | client/src/components/layout/Header.jsx:86-103 | the menu button and the mobile navigation each carry `open` exactly while the menu is open |
| `Header.ButtonAndDrawerAgree` | client/src/components/layout/Header.jsx:86-103 | the button and the drawer show `open` together, exactly when the menu is open |
| `Header.NavigationsAgree` | client/src/components/layout/Header.jsx:53-132 | desktop and mobile navigations list the same four anchors (#about, #skills, #projects, #contact) in order, each fragment naming the section its handler reports |
| `Header.NavClickCloses` | client/src/components/layout/Header.jsx:104-131 | clicking any anchor of either navigation closes the menu |
| `Skills.CategoriesWellFormed` | client/src/components/sections/Skills.jsx:182-201 | card titles are distinct and each card lists six distinct skills |
| `Skills.Initial` | client/src/components/sections/Skills.jsx:180 | at first no card is active |
| `Skills.IsActive` | client/src/components/sections/Skills.jsx:301 | with no hovered category no card is active; an active card's title is the hovered category |
| `Skills.OnHover` | client/src/components/sections/Skills.jsx:236-238 | entering a card makes exactly that title active; leaving makes none active |
| `Skills.AtMostOneActive` | client/src/components/sections/Skills.jsx:296-305 | with distinct titles, no two cards are active at once |
| `Skills.LevelWidth` | client/src/components/sections/Skills.jsx:117 | a bar is at least 80% wide, and at most 100% exactly for the first seven skills |
| `Skills.LevelBarsFit` | client/src/components/sections/Skills.jsx:106-120 | the bars of a card with n skills all fit in 100% iff n is at most 7 |
| `Skills.CardBarsBounded` | client/src/components/sections/Skills.jsx:117 | every bar drawn for the catalogue is between 80% and 95% wide |
| `Skills.ProficiencyBounded` | client/src/components/sections/Skills.jsx:203-210 | every proficiency is within 0..100, listed in strictly decreasing order |
| `Skills.TitleColor` | client/src/components/sections/Skills.jsx:69-89 | on enter the title takes the card's colour |
| `Skills.LeaveColorIsThemeColor` | client/src/components/sections/Skills.jsx:85-89 | on leave the colour depends only on the theme, not the card, and differs between themes |
| `Hero.IsExternal` | client/src/components/sections/Hero.jsx:255 | a link is external exactly when its first four characters are `h`, `t`, `t`, `p` |
| `Hero.ExternalBySchemes` | client/src/components/sections/Hero.jsx:255 | every `http://` and `https://` address is external, every `mailto:` one is not |
| `Hero.SocialAnchor` | client/src/components/sections/Hero.jsx:254-261 | target `_blank` and rel `noopener noreferrer` are set exactly for external links, neither otherwise |
| `Hero.SocialLinksClassified` | client/src/components/sections/Hero.jsx:49-65 | GitHub and LinkedIn open in a new tab, the mail link has neither attribute |
| `Hero.ScrollToSection` | client/src/components/sections/Hero.jsx:67-76 | an existing id is scrolled to; an absent id leaves the page as it was |
| `Hero.ButtonsScroll` | client/src/components/sections/Hero.jsx:225-245 | the two buttons target "projects" and "contact", distinct sections, and do nothing when the section is absent |

## Left out

- Animation: GSAP timelines and ScrollTrigger settings, framer-motion variants, springs and hover scales, the cursor's spring transition; they are third-party configuration with floating-point durations and eases.
- The hero's parallax (`clientX / innerWidth * 50 - 25`): floating-point input to a tween.
- The Three.js canvases, the project image modal and image-loading flags: markup with no state the rest depends on.
- The contact form's HTTP call (`client/src/services/api.js`): network I/O over a library that is not part of this model.
- About, Contact, Footer, ThemeToggle and the cursor element: markup and animation; ThemeToggle only forwards its click to `App`'s toggle, and the cursor element only hands the preset table to the animation library.
- Real `window`, `document` and `localStorage`: replaced by values; the model assumes `localStorage` exists, as the code does without a guard.
- React scheduling: effect batching, StrictMode double mounting, and the stale closure in `setDarkMode(!darkMode)` and `setMenuOpen(!menuOpen)` under batched events; each handler is one sequential transition.
- Header.CloseMenu: the logo click's smooth scroll to the top and the console logging of both handlers are not modelled.
- Cursor.MouseMove: pointer coordinates are integers here; browsers may report fractional client coordinates.
- Project descriptions, links and image URLs, skill gradients, and static copy text.
