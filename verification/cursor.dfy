/**
 * The shared custom-cursor state of `CursorProvider`: a variant name and the
 * last pointer position, the table of visual presets per variant, the
 * `useCursor` guard, and the enter/leave handlers that interactive elements
 * attach to switch the cursor to its "button" look.
 */
module Cursor {
  import opened Js

  /** The four keys of the `variants` table. */
  datatype Variant = Default | Text | Button | Hidden

  function Name(v: Variant): string
  {
    match v
    case Default => "default"
    case Text => "text"
    case Button => "button"
    case Hidden => "hidden"
  }

  /** Looking a name up in the `variants` table: unknown names have no entry. */
  function Parse(name: string): (r: Nullable<Variant>)
    ensures r.Value? ==> Name(r.value) == name
    ensures r.Null? ==> forall v :: Name(v) != name
  {
    if name == "default" then Value(Default)
    else if name == "text" then Value(Text)
    else if name == "button" then Value(Button)
    else if name == "hidden" then Value(Hidden)
    else Null
  }

  /** Every variant is found under its own name. */
  lemma ParseName(v: Variant)
    ensures Parse(Name(v)) == Value(v)
  {
  }

  datatype Point = Point(x: int, y: int)

  /** The provider's state. `setCursorVariant` stores whatever string it is
      given, so the variant is a name, not necessarily a table key. */
  datatype State = State(variant: string, mouse: Point)

  /** Before any event: the default variant at the origin. */
  function Initial(): (s: State)
    ensures Parse(s.variant) == Value(Default)
    ensures s.mouse.x == 0 && s.mouse.y == 0
  {
    State("default", Point(0, 0))
  }

  /** The `mousemove` listener: the position becomes the event's client
      coordinates, nothing else changes. */
  function MouseMove(s: State, clientX: int, clientY: int): (r: State)
    ensures r.mouse.x == clientX && r.mouse.y == clientY
    ensures r.variant == s.variant
  {
    s.(mouse := Point(clientX, clientY))
  }

  /** `setCursorVariant`: the name is stored, the position is kept. */
  function SetVariant(s: State, name: string): (r: State)
    ensures r.variant == name
    ensures r.mouse == s.mouse
  {
    s.(variant := name)
  }

  /** A run of `mousemove` events, oldest first. */
  function MouseMoves(s: State, events: seq<Point>): State
  {
    if |events| == 0 then s
    else
      var last := events[|events| - 1];
      MouseMove(MouseMoves(s, events[..|events| - 1]), last.x, last.y)
  }

  /** The last event wins: no smoothing, no history, no effect on the variant. */
  lemma {:induction false} LastMoveWins(s: State, events: seq<Point>)
    ensures MouseMoves(s, events).variant == s.variant
    ensures |events| == 0 ==> MouseMoves(s, events) == s
    ensures |events| > 0 ==> MouseMoves(s, events).mouse == events[|events| - 1]
  {
    if |events| > 0 {
      LastMoveWins(s, events[..|events| - 1]);
    }
  }

  datatype Blend = Difference | Normal

  /** One entry of the `variants` table as handed to the cursor element. */
  datatype Preset = Preset(x: int, y: int, background: string, blend: Nullable<Blend>, scale: real)

  /** Half the cursor's extent: subtracted from both coordinates to centre it. */
  function Offset(v: Variant): (o: nat)
    ensures 16 <= o <= 40
    ensures o == 16 <==> v == Default || v == Hidden
    ensures o == 40 <==> v == Text
  {
    match v
    case Default => 16
    case Text => 40
    case Button => 20
    case Hidden => 16
  }

  function Scale(v: Variant): (k: real)
    ensures 0.0 <= k <= 2.0
    ensures k == 0.0 <==> v == Hidden
    ensures k == 2.0 <==> v == Text
  {
    match v
    case Default => 1.0
    case Text => 2.0
    case Button => 1.5
    case Hidden => 0.0
  }

  /** `mixBlendMode`; the hidden preset sets none. */
  function BlendMode(v: Variant): (b: Nullable<Blend>)
    ensures b.Null? <==> v == Hidden
    ensures b == Value(Normal) <==> v == Button
  {
    match v
    case Default => Value(Difference)
    case Text => Value(Difference)
    case Button => Value(Normal)
    case Hidden => Null
  }

  function Background(v: Variant): string
  {
    if v == Text then "#ffffff" else "#3b82f6"
  }

  /** The preset for a variant at a pointer position: the pointer lies at the
      preset's position shifted by the variant's offset on both axes. */
  function Resolve(v: Variant, mouse: Point): (r: Preset)
    ensures r.x + Offset(v) == mouse.x && r.y + Offset(v) == mouse.y
    ensures r.scale == Scale(v) && r.blend == BlendMode(v) && r.background == Background(v)
  {
    Preset(mouse.x - Offset(v), mouse.y - Offset(v), Background(v), BlendMode(v), Scale(v))
  }

  /** The hidden variant is the only one drawn at zero scale, and the only one
      without a blend mode; every other variant is drawn at scale 1 or more. */
  lemma OnlyHiddenIsInvisible(v: Variant)
    ensures Scale(v) == 0.0 <==> v == Hidden
    ensures BlendMode(v).Null? <==> v == Hidden
    ensures v != Hidden ==> Scale(v) >= 1.0
  {
  }

  /** The two variants that blend by difference are exactly the ones with
      scale 1 and 2; the button variant, at 1.5, blends normally. */
  lemma DifferenceBlendVariants(v: Variant)
    ensures BlendMode(v) == Value(Difference) <==> v == Default || v == Text
    ensures BlendMode(v) == Value(Normal) <==> Scale(v) == 1.5
  {
  }

  /** The preset the cursor element animates to: none for a name outside the
      table. */
  function CurrentPreset(s: State): (r: Nullable<Preset>)
    ensures r.Value? <==> exists v :: Name(v) == s.variant
    ensures r.Value? ==> r.value == Resolve(Parse(s.variant).value, s.mouse)
    ensures r.Value? ==> (r.value.x + Offset(Parse(s.variant).value) == s.mouse.x
                          && r.value.y + Offset(Parse(s.variant).value) == s.mouse.y)
  {
    match Parse(s.variant)
    case Null => Null
    case Value(v) => assert Name(v) == s.variant; Value(Resolve(v, s.mouse))
  }

  /** A pointer at (120, 80) under the default variant puts the cursor at (104, 64). */
  lemma DefaultCursorAt120x80()
    ensures CurrentPreset(MouseMove(Initial(), 120, 80)) == Value(Preset(104, 64, "#3b82f6", Value(Difference), 1.0))
  {
  }

  /** What `useContext` yields: nothing outside a provider. */
  datatype Context = NoProvider | Provider(state: State)

  /** `useCursor`: throws outside a provider instead of returning nothing. */
  function UseCursor(ctx: Context): (r: Result<State>)
    ensures r.Ok? <==> ctx.Provider?
    ensures r.Ok? ==> r.value == ctx.state
    ensures r.Thrown? ==> r.message == "useCursor must be used within a CursorProvider"
  {
    match ctx
    case NoProvider => Thrown("useCursor must be used within a CursorProvider")
    case Provider(s) => Ok(s)
  }

  /** Pointer entering or leaving an element that opts into the button look. */
  datatype Hover = Enter | Leave

  /** The `onMouseEnter`/`onMouseLeave` pair used by project cards, filter
      buttons, the call to action and the hero's buttons and links. */
  function OnHover(s: State, h: Hover): (r: State)
    ensures r.mouse == s.mouse
    ensures Parse(r.variant) == (if h == Enter then Value(Button) else Value(Default))
  {
    SetVariant(s, if h == Enter then "button" else "default")
  }

  function Hovers(s: State, hs: seq<Hover>): State
  {
    if |hs| == 0 then s else OnHover(Hovers(s, hs[..|hs| - 1]), hs[|hs| - 1])
  }

  /** After any hover events the variant reflects only the most recent one
      (there is no count of elements still under the pointer), the position
      is untouched, and the text and hidden variants are never selected. */
  lemma {:induction false} HoverLastWins(s: State, hs: seq<Hover>)
    ensures Hovers(s, hs).mouse == s.mouse
    ensures |hs| > 0 ==> Hovers(s, hs).variant == (if hs[|hs| - 1] == Enter then "button" else "default")
    ensures s.variant in {"default", "button"} ==> Hovers(s, hs).variant in {"default", "button"}
  {
    if |hs| > 0 {
      HoverLastWins(s, hs[..|hs| - 1]);
    }
  }

  /** One shared variant and no count of hovered targets: should two targets
      ever overlap, entering both and leaving the inner one shows the default
      cursor although the pointer is still over the outer one. */
  lemma NestedHoverResets(s: State)
    ensures Hovers(s, [Enter, Enter, Leave]).variant == "default"
  {
    HoverLastWins(s, [Enter, Enter, Leave]);
  }
}
