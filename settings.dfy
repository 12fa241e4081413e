/**
 * The preferences record of src/main.js, its hard-coded defaults, and the
 * load step that merges a persisted copy over it (`loadSettings`).
 * The persisted blob is seen after `JSON.parse`: a record in which each
 * field may be present or absent.
 */
module SettingsStore {
  import opened Wrappers

  /** The `settings` object: opacity in percent, window flags, chat theme, recent channels. */
  datatype Settings = Settings(
    opacity: int,
    alwaysOnTop: bool,
    clickThrough: bool,
    theme: string,
    recentChannels: seq<string>)

  /** The initial value of `settings`. */
  const Defaults: Settings := Settings(100, false, false, "dark", [])

  /** The top-level fields a parsed blob carries; an absent field is `None`. */
  datatype SavedFields = SavedFields(
    opacity: Option<int>,
    alwaysOnTop: Option<bool>,
    clickThrough: Option<bool>,
    theme: Option<string>,
    recentChannels: Option<seq<string>>)

  const NoFields: SavedFields := SavedFields(None, None, None, None, None)

  /**
   * What `localStorage.getItem` finds under the settings key, as the load step
   * sees it: nothing, the empty string (falsy, so skipped), text `JSON.parse`
   * throws on, or a parsed object.
   */
  datatype StoredBlob = Absent | EmptyText | Malformed | Parsed(fields: SavedFields)

  /** `{ ...base, ...saved }`: each field present in `saved` wins, each absent one keeps `base`'s. */
  function Merge(base: Settings, saved: SavedFields): (r: Settings)
    ensures saved.opacity.Some? ==> r.opacity == saved.opacity.value
    ensures saved.opacity.None? ==> r.opacity == base.opacity
    ensures saved.alwaysOnTop.Some? ==> r.alwaysOnTop == saved.alwaysOnTop.value
    ensures saved.alwaysOnTop.None? ==> r.alwaysOnTop == base.alwaysOnTop
    ensures saved.clickThrough.Some? ==> r.clickThrough == saved.clickThrough.value
    ensures saved.clickThrough.None? ==> r.clickThrough == base.clickThrough
    ensures saved.theme.Some? ==> r.theme == saved.theme.value
    ensures saved.theme.None? ==> r.theme == base.theme
    ensures saved.recentChannels.Some? ==> r.recentChannels == saved.recentChannels.value
    ensures saved.recentChannels.None? ==> r.recentChannels == base.recentChannels
  {
    Settings(
      saved.opacity.GetOr(base.opacity),
      saved.alwaysOnTop.GetOr(base.alwaysOnTop),
      saved.clickThrough.GetOr(base.clickThrough),
      saved.theme.GetOr(base.theme),
      saved.recentChannels.GetOr(base.recentChannels))
  }

  /** `JSON.stringify(settings)` read back: every field present, so it overrides any base whole. */
  function Serialize(s: Settings): (r: SavedFields)
    ensures forall base :: Merge(base, r) == s
  {
    SavedFields(Some(s.opacity), Some(s.alwaysOnTop), Some(s.clickThrough), Some(s.theme), Some(s.recentChannels))
  }

  /** The settings after `loadSettings` ran over `current` with `blob` in storage. */
  function Load(current: Settings, blob: StoredBlob): (r: Settings)
    ensures !blob.Parsed? ==> r == current
    ensures blob.Parsed? ==> r == Merge(current, blob.fields)
  {
    match blob
    case Parsed(fields) => Merge(current, fields)
    case _ => current
  }

  /** What `saveSettings` wrote, loaded back over any settings, is what was saved. */
  lemma LoadAfterSave(current: Settings, saved: Settings)
    ensures Load(current, Parsed(Serialize(saved))) == saved
  {
  }

  /** Loading the same blob twice is loading it once. */
  lemma LoadIdempotent(current: Settings, blob: StoredBlob)
    ensures Load(Load(current, blob), blob) == Load(current, blob)
  {
  }

  /** A parsed object without any of the known fields changes nothing. */
  lemma LoadNoFieldsKeeps(current: Settings)
    ensures Load(current, Parsed(NoFields)) == current
  {
  }

  /** Only `opacity: 50` saved: the defaults fill the rest. */
  lemma LoadOpacityOnly()
    ensures Load(Defaults, Parsed(NoFields.(opacity := Some(50))))
         == Settings(50, false, false, "dark", [])
  {
  }

  /**
   * A persisted list is taken as it is: six entries, or a repeated one,
   * survive the load, so the bound and the absence of duplicates that adding
   * keeps are not guaranteed after a load.
   */
  lemma LoadTakesListAsIs(list: seq<string>)
    ensures Load(Defaults, Parsed(NoFields.(recentChannels := Some(list)))).recentChannels == list
  {
  }
}
