/**
 * The editor state and themes of the Rust editor (editor-rs/src/lib.rs).
 *
 * The editor has three modes that a toggle cycles through, a default
 * theme, and two colour sets chosen by the current theme.  Colours are the
 * source's RGB literals as real numbers; nothing is computed with them.
 */
module ErsLib {
  import opened Wrappers
  import ErsToolbar

  datatype Theme = Light | Dark

  /** `Theme::default()`. */
  function DefaultTheme(): (t: Theme)
    ensures t == Light
  {
    Light
  }

  datatype UIMode = Editor | Simulator | Preferences

  /** `UIMode::default()`. */
  function DefaultMode(): (m: UIMode)
    ensures m == Editor
  {
    Editor
  }

  /** The mode a toggle moves to. */
  function Next(m: UIMode): UIMode
  {
    match m
      case Editor => Simulator
      case Simulator => Preferences
      case Preferences => Editor
  }

  /** Toggling always changes the mode, visits all three modes, and three
    * toggles come back to the start. */
  lemma ToggleCycle(m: UIMode)
    ensures Next(m) != m && Next(Next(m)) != m
    ensures {m, Next(m), Next(Next(m))} == {Editor, Simulator, Preferences}
    ensures Next(Next(Next(m))) == m
  {
  }

  /** `UIState`: the tool bar and the mode. */
  class UIState {
    const toolbar: ErsToolbar.Toolbar
    var mode: UIMode

    /** The derived default: the default tool bar and the default mode. */
    constructor ()
      ensures fresh(toolbar) && toolbar.Valid()
      ensures toolbar.tools == [ErsToolbar.PanTool, ErsToolbar.SelectTool, ErsToolbar.AddStreetTool,
                                ErsToolbar.AddCrossingTool, ErsToolbar.DeleteNodeTool, ErsToolbar.AddIONodeTool]
      ensures toolbar.selected == Some(0) && !toolbar.locked
      ensures mode == DefaultMode()
    {
      toolbar := new ErsToolbar.Toolbar.Default();
      mode := Editor;
    }

    /** `UIMode::toggle()`: Editor, then Simulator, then Preferences, then
      * Editor again. */
    method Toggle()
      modifies this
      ensures mode == Next(old(mode))
    {
      mode := match mode
        case Editor => Simulator
        case Simulator => Preferences
        case Preferences => Editor;
    }

    /** Three toggles leave the mode as it was. */
    method ToggleThrice()
      modifies this
      ensures mode == old(mode)
    {
      Toggle();
      Toggle();
      Toggle();
      ToggleCycle(old(mode));
    }
  }

  datatype Color = Rgb(r: real, g: real, b: real)

  /** The colours of the editor's elements. */
  datatype UITheme = UITheme(background: Color, ioNode: Color, street: Color, crossing: Color)

  datatype CurrentTheme = LIGHT | DARK

  /** `UITheme::light()`. */
  const LIGHT_THEME := UITheme(Rgb(255.0, 255.0, 255.0), Rgb(0.0, 200.0, 0.0), Rgb(100.0, 50.0, 0.0), Rgb(0.0, 200.0, 0.0))

  /** `UITheme::dark()`. */
  const DARK_THEME := UITheme(Rgb(0.0, 0.0, 0.0), Rgb(200.0, 200.0, 0.0), Rgb(255.0, 255.0, 255.0), Rgb(200.0, 200.0, 0.0))

  /** `UITheme::from_enum`: LIGHT gives the light colours and DARK the dark
    * ones; the two themes differ, so the choice is visible. */
  function FromEnum(theme: CurrentTheme): (u: UITheme)
    ensures theme == LIGHT ==> u.background == Rgb(255.0, 255.0, 255.0)
    ensures theme == DARK ==> u.background == Rgb(0.0, 0.0, 0.0)
    ensures u == LIGHT_THEME || u == DARK_THEME
  {
    match theme
      case LIGHT => LIGHT_THEME
      case DARK => DARK_THEME
  }

  /** Different current themes give different colour sets, and in each the
    * IO nodes and crossings share one colour. */
  lemma FromEnumDistinguishes(a: CurrentTheme, b: CurrentTheme)
    ensures FromEnum(a) == FromEnum(b) <==> a == b
    ensures FromEnum(a).ioNode == FromEnum(a).crossing
  {
  }
}
