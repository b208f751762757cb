/**
 * Theme settings: the defaults, the partial-record merge of `updateSettings`,
 * and the values the settings effect derives from the settings: whether the
 * document root carries the `dark` class, and the CSS custom properties it
 * sets. The system colour-scheme preference is the parameter `prefersDark`.
 */
module Theme {
  import opened Seqs

  datatype ThemeName = Light | Dark | System
  datatype ColorScheme = Indigo | Purple | Blue | Green | Rose
  datatype FontSize = Sm | Base | Lg

  datatype ThemeSettings = ThemeSettings(
    theme: ThemeName,
    colorScheme: ColorScheme,
    fontSize: FontSize,
    reducedMotion: bool,
    roundedCorners: bool)

  /** `Partial<ThemeSettings>`: each field may be left out. */
  datatype PartialSettings = PartialSettings(
    theme: Option<ThemeName>,
    colorScheme: Option<ColorScheme>,
    fontSize: Option<FontSize>,
    reducedMotion: Option<bool>,
    roundedCorners: Option<bool>)

  const DefaultSettings: ThemeSettings := ThemeSettings(System, Indigo, Base, false, true)

  const NoChanges: PartialSettings := PartialSettings(None, None, None, None, None)

  function Pick<T>(given: Option<T>, prev: T): T
  {
    if given.Some? then given.value else prev
  }

  /**
   * `updateSettings`: `{ ...prev, ...newSettings }`, every field the partial
   * record holds overrides the previous value, every other field stays.
   */
  function UpdateSettings(prev: ThemeSettings, p: PartialSettings): (r: ThemeSettings)
    ensures p.theme.Some? ==> r.theme == p.theme.value
    ensures p.theme.None? ==> r.theme == prev.theme
    ensures p.colorScheme.Some? ==> r.colorScheme == p.colorScheme.value
    ensures p.colorScheme.None? ==> r.colorScheme == prev.colorScheme
    ensures p.fontSize.Some? ==> r.fontSize == p.fontSize.value
    ensures p.fontSize.None? ==> r.fontSize == prev.fontSize
    ensures p.reducedMotion.Some? ==> r.reducedMotion == p.reducedMotion.value
    ensures p.reducedMotion.None? ==> r.reducedMotion == prev.reducedMotion
    ensures p.roundedCorners.Some? ==> r.roundedCorners == p.roundedCorners.value
    ensures p.roundedCorners.None? ==> r.roundedCorners == prev.roundedCorners
  {
    ThemeSettings(
      Pick(p.theme, prev.theme),
      Pick(p.colorScheme, prev.colorScheme),
      Pick(p.fontSize, prev.fontSize),
      Pick(p.reducedMotion, prev.reducedMotion),
      Pick(p.roundedCorners, prev.roundedCorners))
  }

  /** Two partial records spread one after the other: the later one's fields win. */
  function Combine(first: PartialSettings, second: PartialSettings): PartialSettings
  {
    PartialSettings(
      if second.theme.Some? then second.theme else first.theme,
      if second.colorScheme.Some? then second.colorScheme else first.colorScheme,
      if second.fontSize.Some? then second.fontSize else first.fontSize,
      if second.reducedMotion.Some? then second.reducedMotion else first.reducedMotion,
      if second.roundedCorners.Some? then second.roundedCorners else first.roundedCorners)
  }

  /** An empty partial record changes nothing. */
  lemma UpdateWithNothing(s: ThemeSettings)
    ensures UpdateSettings(s, NoChanges) == s
  {
  }

  /** Applying the same partial record twice is applying it once. */
  lemma UpdateIdempotent(s: ThemeSettings, p: PartialSettings)
    ensures UpdateSettings(UpdateSettings(s, p), p) == UpdateSettings(s, p)
  {
  }

  /** Two updates in a row are one update with the combined partial record. */
  lemma UpdateTwice(s: ThemeSettings, p: PartialSettings, q: PartialSettings)
    ensures UpdateSettings(UpdateSettings(s, p), q) == UpdateSettings(s, Combine(p, q))
  {
  }

  /** A partial record holding every field replaces the settings whatever they were. */
  lemma UpdateWithEverything(s: ThemeSettings, t: ThemeSettings)
    ensures UpdateSettings(s, PartialSettings(Some(t.theme), Some(t.colorScheme), Some(t.fontSize),
                                              Some(t.reducedMotion), Some(t.roundedCorners))) == t
  {
  }

  /** Updates whose partial records set disjoint fields can be applied in either order. */
  lemma UpdatesCommute(s: ThemeSettings, p: PartialSettings, q: PartialSettings)
    requires p.theme.None? || q.theme.None?
    requires p.colorScheme.None? || q.colorScheme.None?
    requires p.fontSize.None? || q.fontSize.None?
    requires p.reducedMotion.None? || q.reducedMotion.None?
    requires p.roundedCorners.None? || q.roundedCorners.None?
    ensures UpdateSettings(UpdateSettings(s, p), q) == UpdateSettings(UpdateSettings(s, q), p)
  {
  }

  // ---------------------------------------------------------------------------
  // Values the settings effect applies

  /** Whether the document root carries the `dark` class. */
  function DarkClass(s: ThemeSettings, prefersDark: bool): (r: bool)
    ensures r <==> s.theme == Dark || (s.theme == System && prefersDark)
  {
    if s.theme == System then prefersDark else s.theme == Dark
  }

  /** The system preference matters only under the `system` theme. */
  lemma DarkClassFollowsSystemOnlyUnderSystem(s: ThemeSettings)
    ensures s.theme != System ==> DarkClass(s, true) == DarkClass(s, false)
    ensures s.theme == System ==> DarkClass(s, true) && !DarkClass(s, false)
  {
  }

  function SchemeName(c: ColorScheme): string
  {
    match c
    case Indigo => "indigo"
    case Purple => "purple"
    case Blue => "blue"
    case Green => "green"
    case Rose => "rose"
  }

  /** `var(--color-<scheme>-<shade>)`. */
  function ColorVar(c: ColorScheme, shade: string): string
  {
    "var(--color-" + SchemeName(c) + "-" + shade + ")"
  }

  /** The values of `--color-primary`, `--color-primary-light` and `--color-primary-dark`. */
  function PrimaryColor(c: ColorScheme): string { ColorVar(c, "600") }
  function PrimaryLight(c: ColorScheme): string { ColorVar(c, "500") }
  function PrimaryDark(c: ColorScheme): string { ColorVar(c, "700") }

  lemma SchemeNameInjective(a: ColorScheme, b: ColorScheme)
    requires SchemeName(a) == SchemeName(b)
    ensures a == b
  {
  }

  /**
   * The colour variables name the scheme: two schemes give the same value of
   * a variable only when they are the same scheme, and the three variables of
   * one scheme use the shades 600, 500 and 700.
   */
  lemma ColorVarsDetermineScheme(a: ColorScheme, b: ColorScheme, shade: string)
    requires ColorVar(a, shade) == ColorVar(b, shade)
    ensures a == b
  {
    var prefix := "var(--color-";
    var na, nb := SchemeName(a), SchemeName(b);
    assert |na| == |nb|;
    assert na == ColorVar(a, shade)[|prefix|..|prefix| + |na|];
    assert nb == ColorVar(b, shade)[|prefix|..|prefix| + |nb|];
    SchemeNameInjective(a, b);
  }

  /** The three colour variables of a scheme are different values. */
  lemma ShadesDiffer(c: ColorScheme)
    ensures PrimaryColor(c) != PrimaryLight(c) && PrimaryColor(c) != PrimaryDark(c) && PrimaryLight(c) != PrimaryDark(c)
  {
    var k := |"var(--color-" + SchemeName(c) + "-"|;
    assert PrimaryColor(c)[k] == '6' && PrimaryLight(c)[k] == '5' && PrimaryDark(c)[k] == '7';
  }

  /** `--base-font-size`: 14px for `sm`, 18px for `lg`, 16px otherwise. */
  function FontSizeValue(f: FontSize): (r: string)
    ensures r == "14px" <==> f == Sm
    ensures r == "18px" <==> f == Lg
    ensures r == "16px" <==> f == Base
  {
    assert "14px"[1] == '4' && "16px"[1] == '6' && "18px"[1] == '8';
    assert "14px" != "16px" && "14px" != "18px" && "16px" != "18px";
    match f
    case Sm => "14px"
    case Lg => "18px"
    case Base => "16px"
  }

  /** `--transition-duration`: no transitions when motion is reduced. */
  function TransitionDuration(reducedMotion: bool): (r: string)
    ensures r == "0s" <==> reducedMotion
    ensures r == "200ms" <==> !reducedMotion
  {
    if reducedMotion then "0s" else "200ms"
  }

  /** `--border-radius`: larger radius for rounded corners. */
  function BorderRadius(roundedCorners: bool): (r: string)
    ensures r == "0.5rem" <==> roundedCorners
    ensures r == "0.25rem" <==> !roundedCorners
  {
    if roundedCorners then "0.5rem" else "0.25rem"
  }

  /** The custom properties the effect sets on the document root. */
  function AppliedStyle(s: ThemeSettings): (m: map<string, string>)
    ensures m.Keys == {"--color-primary", "--color-primary-light", "--color-primary-dark",
                       "--base-font-size", "--transition-duration", "--border-radius"}
  {
    map[
      "--color-primary" := PrimaryColor(s.colorScheme),
      "--color-primary-light" := PrimaryLight(s.colorScheme),
      "--color-primary-dark" := PrimaryDark(s.colorScheme),
      "--base-font-size" := FontSizeValue(s.fontSize),
      "--transition-duration" := TransitionDuration(s.reducedMotion),
      "--border-radius" := BorderRadius(s.roundedCorners)
    ]
  }

  /**
   * The style a settings record applies tells back every setting but the
   * theme: two settings records set the same properties exactly when they
   * agree on scheme, font size, motion and corners.
   */
  lemma AppliedStyleDeterminesSettings(s: ThemeSettings, t: ThemeSettings)
    ensures AppliedStyle(s) == AppliedStyle(t) <==>
      s.colorScheme == t.colorScheme && s.fontSize == t.fontSize &&
      s.reducedMotion == t.reducedMotion && s.roundedCorners == t.roundedCorners
  {
    if AppliedStyle(s) == AppliedStyle(t) {
      assert AppliedStyle(s)["--color-primary"] == AppliedStyle(t)["--color-primary"];
      ColorVarsDetermineScheme(s.colorScheme, t.colorScheme, "600");
      assert AppliedStyle(s)["--base-font-size"] == AppliedStyle(t)["--base-font-size"];
      assert AppliedStyle(s)["--transition-duration"] == AppliedStyle(t)["--transition-duration"];
      assert AppliedStyle(s)["--border-radius"] == AppliedStyle(t)["--border-radius"];
    }
  }

  /** The defaults: light or dark as the system prefers, indigo, 16px, 200ms transitions, 0.5rem corners. */
  lemma DefaultsApply(prefersDark: bool)
    ensures DarkClass(DefaultSettings, prefersDark) == prefersDark
    ensures AppliedStyle(DefaultSettings)["--color-primary"] == "var(--color-indigo-600)"
    ensures AppliedStyle(DefaultSettings)["--base-font-size"] == "16px"
    ensures AppliedStyle(DefaultSettings)["--transition-duration"] == "200ms"
    ensures AppliedStyle(DefaultSettings)["--border-radius"] == "0.5rem"
  {
  }
}
