/**
 * The application-wide settings: sound on/off, the colour theme (light, dark, or
 * following the system), and the settings dialog. Settings persist in a key/value store
 * that stands for the browser's local storage; the system's dark-mode preference is an
 * input. The `dark` class on the document root follows the resolved theme.
 */
module Settings {

  import opened Optional

  datatype Theme = Light | Dark | System

  /** The theme actually shown: a system theme resolved to light or dark. */
  datatype Scheme = LightScheme | DarkScheme

  const ThemeKey := "granboard_theme"
  const SoundKey := "granboard_sound_enabled"
  const ReopenKey := "granboard_reopen_settings"

  /** The text a theme is stored as. */
  function ThemeName(t: Theme): string {
    match t
    case Light => "light"
    case Dark => "dark"
    case System => "system"
  }

  /** A stored theme text, accepted only if it names one of the three themes. */
  function SavedTheme(saved: Option<string>): (r: Option<Theme>)
    ensures r.Some? <==> saved.Some? && saved.value in {"light", "dark", "system"}
    ensures r.Some? ==> ThemeName(r.value) == saved.value
  {
    if saved == Some("light") then Some(Light)
    else if saved == Some("dark") then Some(Dark)
    else if saved == Some("system") then Some(System)
    else None
  }

  /** A theme written to the store is read back as the same theme. */
  lemma ThemeRoundTrip(t: Theme)
    ensures SavedTheme(Some(ThemeName(t))) == Some(t)
  {
  }

  /** Light and dark stand for themselves; the system theme follows the system preference. */
  function ResolveTheme(t: Theme, systemPrefersDark: bool): (r: Scheme)
    ensures t == Light ==> r == LightScheme
    ensures t == Dark ==> r == DarkScheme
    ensures t == System ==> (r == DarkScheme <==> systemPrefersDark)
  {
    match t
    case Light => LightScheme
    case Dark => DarkScheme
    case System => if systemPrefersDark then DarkScheme else LightScheme
  }

  /** `String(b)` for a boolean. */
  function BoolText(b: bool): string {
    if b then "true" else "false"
  }

  /**
   * The sound flag after loading: a stored non-empty text sets it to whether the text is
   * "true"; no stored text, or an empty one, leaves it as it is.
   */
  function LoadedSound(saved: Option<string>, current: bool): (r: bool)
    ensures saved.None? || saved == Some("") ==> r == current
    ensures saved.Some? && saved.value != "" ==> (r <==> saved.value == "true")
  {
    if saved.Some? && saved.value != "" then saved.value == "true" else current
  }

  /** A sound flag written to the store is read back as the same flag. */
  lemma SoundRoundTrip(b: bool, current: bool)
    ensures LoadedSound(Some(BoolText(b)), current) == b
  {
  }

  function Lookup(storage: map<string, string>, key: string): (r: Option<string>)
    ensures r.Some? <==> key in storage
    ensures r.Some? ==> r.value == storage[key]
  {
    if key in storage then Some(storage[key]) else None
  }

  /** The provider's state; `C` is the type of custom dialog content. */
  class SettingsProvider<C> {
    var soundEnabled: bool
    var theme: Theme
    var resolvedTheme: Scheme
    var isDialogOpen: bool
    var customContent: Option<C>
    /** Whether the document root carries the `dark` class. */
    var rootDark: bool
    var storage: map<string, string>
    var systemPrefersDark: bool

    /** The shown scheme and the root class agree with the selected theme. */
    ghost predicate ThemeApplied()
      reads this
    {
      resolvedTheme == ResolveTheme(theme, systemPrefersDark) && rootDark == (resolvedTheme == DarkScheme)
    }

    /**
     * Before anything is loaded: sound on, the system theme (shown as dark), the dialog
     * closed and no custom content.
     */
    constructor(storage: map<string, string>, systemPrefersDark: bool, rootDark: bool)
      ensures soundEnabled && theme == System && resolvedTheme == DarkScheme
      ensures !isDialogOpen && customContent == None
      ensures this.storage == storage && this.systemPrefersDark == systemPrefersDark
      ensures this.rootDark == rootDark
    {
      soundEnabled := true;
      theme := System;
      resolvedTheme := DarkScheme;
      isDialogOpen := false;
      customContent := None;
      this.rootDark := rootDark;
      this.storage := storage;
      this.systemPrefersDark := systemPrefersDark;
    }

    /** Shows a theme: resolves it and puts the `dark` class on the root exactly when dark. */
    method ApplyTheme(t: Theme)
      modifies this`resolvedTheme, this`rootDark
      ensures resolvedTheme == ResolveTheme(t, systemPrefersDark)
      ensures rootDark <==> resolvedTheme == DarkScheme
    {
      resolvedTheme := ResolveTheme(t, systemPrefersDark);
      if resolvedTheme == DarkScheme {
        rootDark := true;
      } else {
        rootDark := false;
      }
    }

    /**
     * Loading on mount: the stored sound flag, the stored theme when it is a valid name
     * (else the system theme is shown), and the dialog reopened, with the reopen flag
     * removed, when that flag is "true".
     */
    method LoadOnMount()
      modifies this
      ensures soundEnabled == LoadedSound(Lookup(old(storage), SoundKey), old(soundEnabled))
      ensures var saved := SavedTheme(Lookup(old(storage), ThemeKey));
        && theme == (if saved.Some? then saved.value else old(theme))
        && resolvedTheme == ResolveTheme(if saved.Some? then saved.value else System, systemPrefersDark)
        && (rootDark <==> resolvedTheme == DarkScheme)
      ensures Lookup(old(storage), ReopenKey) == Some("true") ==>
        isDialogOpen && storage == old(storage) - {ReopenKey}
      ensures Lookup(old(storage), ReopenKey) != Some("true") ==>
        isDialogOpen == old(isDialogOpen) && storage == old(storage)
      ensures customContent == old(customContent) && systemPrefersDark == old(systemPrefersDark)
    {
      var savedSound := Lookup(storage, SoundKey);
      var savedTheme := Lookup(storage, ThemeKey);
      var shouldReopen := Lookup(storage, ReopenKey);
      if savedSound.Some? && savedSound.value != "" {
        soundEnabled := savedSound.value == "true";
      }
      var valid := SavedTheme(savedTheme);
      if valid.Some? {
        theme := valid.value;
        ApplyTheme(valid.value);
      } else {
        ApplyTheme(System);
      }
      if shouldReopen == Some("true") {
        storage := storage - {ReopenKey};
        isDialogOpen := true;
      }
    }

    /** Flips the sound flag and stores the new value as "true" or "false". */
    method ToggleSound()
      modifies this`soundEnabled, this`storage
      ensures soundEnabled == !old(soundEnabled)
      ensures storage == old(storage)[SoundKey := BoolText(soundEnabled)]
    {
      soundEnabled := !soundEnabled;
      storage := storage[SoundKey := BoolText(soundEnabled)];
    }

    /** Selects, stores and shows a theme. */
    method SetTheme(t: Theme)
      modifies this`theme, this`storage, this`resolvedTheme, this`rootDark
      ensures ThemeApplied() && theme == t
      ensures storage == old(storage)[ThemeKey := ThemeName(t)]
    {
      theme := t;
      storage := storage[ThemeKey := ThemeName(t)];
      ApplyTheme(t);
    }

    /** The system preference changed; a system theme is shown again with it. */
    method SystemPreferenceChanged(prefersDark: bool)
      modifies this`systemPrefersDark, this`resolvedTheme, this`rootDark
      ensures systemPrefersDark == prefersDark
      ensures theme == System ==>
        resolvedTheme == ResolveTheme(System, prefersDark) && (rootDark <==> resolvedTheme == DarkScheme)
      ensures theme != System ==> resolvedTheme == old(resolvedTheme) && rootDark == old(rootDark)
      ensures old(ThemeApplied()) ==> ThemeApplied()
    {
      systemPrefersDark := prefersDark;
      if theme == System {
        ApplyTheme(System);
      }
    }

    /** Opens the dialog, showing `content` when some is given. */
    method OpenDialog(content: Option<C>)
      modifies this`isDialogOpen, this`customContent
      ensures isDialogOpen && customContent == content
    {
      customContent := content;
      isDialogOpen := true;
    }

    /** Closes the dialog and forgets its custom content. */
    method CloseDialog()
      modifies this`isDialogOpen, this`customContent
      ensures !isDialogOpen && customContent == None
    {
      isDialogOpen := false;
      customContent := None;
    }
  }

  /** Toggling the sound twice restores the flag, and the store holds it again. */
  method ToggleSoundTwice<C>(s: SettingsProvider<C>)
    modifies s
    ensures s.soundEnabled == old(s.soundEnabled)
    ensures s.storage == old(s.storage)[SoundKey := BoolText(old(s.soundEnabled))]
  {
    s.ToggleSound();
    s.ToggleSound();
  }

  /**
   * A theme and sound flag chosen in one session are the ones a later session loads from
   * the same store.
   */
  method ChoicesSurviveReload<C>(s: SettingsProvider<C>, t: Theme, rootDark: bool)
    returns (reloaded: SettingsProvider<C>)
    modifies s
    ensures reloaded.theme == t && reloaded.soundEnabled == !old(s.soundEnabled)
    ensures reloaded.ThemeApplied()
  {
    s.SetTheme(t);
    s.ToggleSound();
    reloaded := new SettingsProvider(s.storage, s.systemPrefersDark, rootDark);
    ThemeRoundTrip(t);
    SoundRoundTrip(s.soundEnabled, true);
    reloaded.LoadOnMount();
  }
}
