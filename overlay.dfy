/**
 * The module-level state of src/main.js and the handlers that change it.
 * Requests to the host shell (window opacity, always-on-top, click-through,
 * size reset) and the final navigation are recorded in a ghost log, in the
 * order the script issues them; whether the host honours them is not modelled.
 */
module Overlay {
  import opened Wrappers
  import opened SettingsStore
  import RecentChannels
  import ChannelName

  /** One request to the host shell, or the navigation that ends the main screen. */
  datatype HostEffect =
    | SetWindowOpacity(percent: int)
    | SetAlwaysOnTop(enabled: bool)
    | SetClickThrough(enabled: bool)
    | ResetWindowSize
    | Navigate(url: string)

  /** The values the settings controls show. */
  datatype Controls = Controls(
    opacitySlider: int,
    onTopChecked: bool,
    clickThroughChecked: bool,
    themeSelected: string)

  /** How `openChat` ended. */
  datatype OpenOutcome = InputFocused | NameRejected | NavigatedTo(url: string)

  /** Whether the last click-through request in `effects` turned it on (off when there was none). */
  ghost function ClickThroughOn(effects: seq<HostEffect>): bool
  {
    if effects == [] then false
    else match effects[|effects| - 1]
      case SetClickThrough(on) => on
      case _ => ClickThroughOn(effects[..|effects| - 1])
  }

  /** Whether the script has navigated away from the main screen. */
  ghost predicate LeftMainScreen(effects: seq<HostEffect>)
  {
    exists i :: 0 <= i < |effects| && effects[i].Navigate?
  }

  lemma ClickThroughAfter(effects: seq<HostEffect>, e: HostEffect)
    ensures ClickThroughOn(effects + [e])
         == if e.SetClickThrough? then e.enabled else ClickThroughOn(effects)
    ensures LeftMainScreen(effects + [e]) <==> LeftMainScreen(effects) || e.Navigate?
  {
    assert (effects + [e])[..|effects|] == effects;
    if LeftMainScreen(effects) {
      var i :| 0 <= i < |effects| && effects[i].Navigate?;
      assert (effects + [e])[i] == effects[i];
    }
    if e.Navigate? {
      assert (effects + [e])[|effects|] == e;
    }
  }

  class App {
    var opacity: int
    var alwaysOnTop: bool
    var clickThrough: bool
    var theme: string
    var recentChannels: seq<string>
    var currentChannel: string
    var isOnTwitchChat: bool
    /** The persisted slot under the settings key. */
    var store: StoredBlob
    /** Whether `localStorage.setItem` succeeds; a failed write is only logged. */
    var storageWritable: bool
    var controls: Controls
    var recentHidden: bool
    /** The labels of the recent-channel buttons, in order. */
    var recentButtons: seq<string>
    ghost var effects: seq<HostEffect>

    /** The `settings` object as one value. */
    function Snapshot(): Settings
      reads this
    {
      Settings(opacity, alwaysOnTop, clickThrough, theme, recentChannels)
    }

    /**
     * Click-through is never in effect on the main screen. `openChat` turns it
     * on just before it navigates away; the model takes those two steps as one.
     */
    ghost predicate Valid()
      reads this
    {
      !isOnTwitchChat && !LeftMainScreen(effects) ==> !ClickThroughOn(effects)
    }

    /** The script as loaded: default settings, nothing requested yet. */
    constructor (persisted: StoredBlob, writable: bool)
      ensures Valid()
      ensures Snapshot() == Defaults
      ensures currentChannel == "" && !isOnTwitchChat
      ensures store == persisted && storageWritable == writable
      ensures effects == []
    {
      opacity, alwaysOnTop, clickThrough, theme, recentChannels := 100, false, false, "dark", [];
      currentChannel, isOnTwitchChat := "", false;
      store, storageWritable := persisted, writable;
      controls := Controls(100, false, false, "dark");
      recentHidden, recentButtons := true, [];
      effects := [];
    }

    /** `saveSettings`: the whole record is written, unless the write fails. */
    method SaveSettings()
      modifies this`store
      ensures store == if storageWritable then Parsed(Serialize(Snapshot())) else old(store)
    {
      if storageWritable {
        store := Parsed(Serialize(Snapshot()));
      }
    }

    /** `loadSettings`: the stored fields are merged over the current settings. */
    method LoadSettings()
      modifies this`opacity, this`alwaysOnTop, this`clickThrough, this`theme, this`recentChannels
      ensures Snapshot() == Load(old(Snapshot()), store)
    {
      match store {
        case Parsed(fields) =>
          var merged := Merge(Snapshot(), fields);
          opacity, alwaysOnTop, clickThrough := merged.opacity, merged.alwaysOnTop, merged.clickThrough;
          theme, recentChannels := merged.theme, merged.recentChannels;
        case _ =>
      }
    }

    /**
     * `applySettings`: the controls show every stored value, opacity and
     * always-on-top are requested, and click-through is requested off
     * whatever the stored preference says.
     */
    method ApplySettings()
      modifies this`controls, this`effects
      ensures Valid()
      ensures controls == Controls(opacity, alwaysOnTop, clickThrough, theme)
      ensures effects == old(effects)
                         + [SetWindowOpacity(opacity), SetAlwaysOnTop(alwaysOnTop), SetClickThrough(false)]
      ensures !ClickThroughOn(effects)
    {
      effects := effects + [SetWindowOpacity(opacity)];
      effects := effects + [SetAlwaysOnTop(alwaysOnTop)];
      controls := Controls(opacity, alwaysOnTop, clickThrough, theme);
      ClickThroughAfter(effects, SetClickThrough(false));
      effects := effects + [SetClickThrough(false)];
    }

    /** `renderRecentChannels`: hide an empty list, otherwise one button per channel, in order. */
    method RenderRecentChannels()
      modifies this`recentHidden, this`recentButtons
      ensures recentHidden <==> recentChannels == []
      ensures recentChannels != [] ==> recentButtons == recentChannels
      ensures recentChannels == [] ==> recentButtons == old(recentButtons)
    {
      if recentChannels == [] {
        recentHidden := true;
        return;
      }
      recentHidden := false;
      recentButtons := [];
      var i := 0;
      while i < |recentChannels|
        invariant 0 <= i <= |recentChannels|
        invariant !recentHidden
        invariant recentButtons == recentChannels[..i]
      {
        recentButtons := recentButtons + [recentChannels[i]];
        i := i + 1;
      }
    }

    /** The `DOMContentLoaded` handler; on the chat site itself it does nothing. */
    method Startup(onTwitchHost: bool)
      requires Valid()
      modifies this`isOnTwitchChat, this`opacity, this`alwaysOnTop, this`clickThrough, this`theme,
               this`recentChannels, this`recentHidden, this`recentButtons, this`controls, this`effects
      ensures Valid()
      ensures onTwitchHost ==>
                && Snapshot() == old(Snapshot()) && effects == old(effects)
                && isOnTwitchChat == old(isOnTwitchChat) && controls == old(controls)
                && recentHidden == old(recentHidden) && recentButtons == old(recentButtons)
      ensures !onTwitchHost ==> Snapshot() == Load(old(Snapshot()), store) && !isOnTwitchChat
      ensures !onTwitchHost ==>
                effects == old(effects)
                           + [SetWindowOpacity(opacity), SetAlwaysOnTop(alwaysOnTop), SetClickThrough(false)]
      ensures !onTwitchHost ==> !ClickThroughOn(effects)
      ensures !onTwitchHost ==> controls == Controls(opacity, alwaysOnTop, clickThrough, theme)
      ensures !onTwitchHost ==> (recentHidden <==> recentChannels == [])
      ensures !onTwitchHost && recentChannels != [] ==> recentButtons == recentChannels
      ensures !onTwitchHost && recentChannels == [] ==> recentButtons == old(recentButtons)
    {
      if onTwitchHost {
        return;
      }
      isOnTwitchChat := false;
      LoadSettings();
      RenderRecentChannels();
      ApplySettings();
    }

    /** `addToRecentChannels`: filter out, put in front, cut to five, persist, re-render. */
    method AddToRecentChannels(channel: string)
      requires Valid()
      modifies this`recentChannels, this`store, this`recentHidden, this`recentButtons
      ensures Valid()
      ensures recentChannels == RecentChannels.AddRecent(old(recentChannels), channel)
      ensures 0 < |recentChannels| <= RecentChannels.MaxRecent
      ensures recentChannels[0] == channel && channel !in recentChannels[1..]
      ensures Snapshot() == old(Snapshot()).(recentChannels := recentChannels)
      ensures store == if storageWritable then Parsed(Serialize(Snapshot())) else old(store)
      ensures !recentHidden && recentButtons == recentChannels
    {
      recentChannels := RecentChannels.Without(recentChannels, channel);
      recentChannels := [channel] + recentChannels;
      if |recentChannels| > RecentChannels.MaxRecent {
        recentChannels := recentChannels[..RecentChannels.MaxRecent];
      }
      SaveSettings();
      RenderRecentChannels();
    }

    /** The clear-history handler: empty list, persisted, list hidden; nothing else changes. */
    method ClearHistory()
      requires Valid()
      modifies this`recentChannels, this`store, this`recentHidden, this`recentButtons
      ensures Valid()
      ensures Snapshot() == old(Snapshot()).(recentChannels := [])
      ensures store == if storageWritable then Parsed(Serialize(Snapshot())) else old(store)
      ensures recentHidden && recentButtons == old(recentButtons)
    {
      recentChannels := [];
      SaveSettings();
      RenderRecentChannels();
    }

    /** The always-on-top toggle: store the box's value, request it, persist. */
    method ToggleAlwaysOnTop(checked: bool)
      requires Valid()
      modifies this`alwaysOnTop, this`controls, this`effects, this`store
      ensures Valid()
      ensures Snapshot() == old(Snapshot()).(alwaysOnTop := checked)
      ensures controls == old(controls).(onTopChecked := checked)
      ensures effects == old(effects) + [SetAlwaysOnTop(checked)]
      ensures store == if storageWritable then Parsed(Serialize(Snapshot())) else old(store)
    {
      controls := controls.(onTopChecked := checked);
      alwaysOnTop := checked;
      ClickThroughAfter(effects, SetAlwaysOnTop(checked));
      effects := effects + [SetAlwaysOnTop(checked)];
      SaveSettings();
    }

    /**
     * The click-through toggle: the preference is always stored and persisted,
     * but its effect is requested only while the chat is shown.
     */
    method ToggleClickThrough(checked: bool)
      requires Valid()
      modifies this`clickThrough, this`controls, this`effects, this`store
      ensures Valid()
      ensures Snapshot() == old(Snapshot()).(clickThrough := checked)
      ensures controls == old(controls).(clickThroughChecked := checked)
      ensures store == if storageWritable then Parsed(Serialize(Snapshot())) else old(store)
      ensures effects == old(effects) + (if isOnTwitchChat then [SetClickThrough(checked)] else [])
    {
      controls := controls.(clickThroughChecked := checked);
      clickThrough := checked;
      SaveSettings();
      if isOnTwitchChat {
        ClickThroughAfter(effects, SetClickThrough(clickThrough));
        effects := effects + [SetClickThrough(clickThrough)];
      }
    }

    /** The slider's `input` event: the new percentage is kept and requested, not persisted. */
    method SlideOpacity(percent: int)
      requires Valid()
      modifies this`opacity, this`controls, this`effects
      ensures Valid()
      ensures Snapshot() == old(Snapshot()).(opacity := percent)
      ensures controls == old(controls).(opacitySlider := percent)
      ensures effects == old(effects) + [SetWindowOpacity(percent)]
    {
      controls := controls.(opacitySlider := percent);
      opacity := percent;
      ClickThroughAfter(effects, SetWindowOpacity(percent));
      effects := effects + [SetWindowOpacity(percent)];
    }

    /** The slider's `change` event (release): persist. */
    method ReleaseOpacity()
      modifies this`store
      ensures store == if storageWritable then Parsed(Serialize(Snapshot())) else old(store)
    {
      SaveSettings();
    }

    /**
     * The theme select: store and persist the theme. `refreshFrame` tells
     * whether the handler goes on to call `updateChatFrame`, which it does
     * once a channel has been chosen.
     */
    method SelectTheme(value: string) returns (refreshFrame: bool)
      modifies this`theme, this`controls, this`store
      ensures Snapshot() == old(Snapshot()).(theme := value)
      ensures controls == old(controls).(themeSelected := value)
      ensures store == if storageWritable then Parsed(Serialize(Snapshot())) else old(store)
      ensures refreshFrame <==> currentChannel != ""
    {
      controls := controls.(themeSelected := value);
      theme := value;
      SaveSettings();
      refreshFrame := currentChannel != "";
    }

    /** The reset-size button. */
    method ResetSize()
      requires Valid()
      modifies this`effects
      ensures Valid()
      ensures effects == old(effects) + [ResetWindowSize]
    {
      ClickThroughAfter(effects, ResetWindowSize);
      effects := effects + [ResetWindowSize];
    }

    /**
     * `openChat` on the typed text. Rejected input changes nothing and
     * navigates nowhere. Accepted input becomes the current channel, is
     * added to the recent list, and the chat URL is navigated to, preceded
     * by a click-through request when that preference is on.
     */
    method OpenChat(input: string) returns (outcome: OpenOutcome)
      requires Valid()
      modifies this`currentChannel, this`recentChannels, this`store, this`recentHidden,
               this`recentButtons, this`effects
      ensures Valid()
      ensures ChannelName.Validate(input) == Failure(ChannelName.EmptyInput) ==> outcome == InputFocused
      ensures ChannelName.Validate(input) == Failure(ChannelName.InvalidName) ==> outcome == NameRejected
      ensures ChannelName.Validate(input).Failure? ==>
                && currentChannel == old(currentChannel) && recentChannels == old(recentChannels)
                && store == old(store) && effects == old(effects)
                && recentHidden == old(recentHidden) && recentButtons == old(recentButtons)
      ensures ChannelName.Validate(input).Success? ==>
                var name := ChannelName.Validate(input).value;
                && currentChannel == name
                && recentChannels == RecentChannels.AddRecent(old(recentChannels), name)
                && outcome == NavigatedTo(ChannelName.PopoutUrl(name, theme))
                && effects == old(effects)
                              + (if clickThrough then [SetClickThrough(true)] else [])
                              + [Navigate(ChannelName.PopoutUrl(name, theme))]
                && store == (if storageWritable then Parsed(Serialize(Snapshot())) else old(store))
                && !recentHidden && recentButtons == recentChannels
      ensures Snapshot() == old(Snapshot()).(recentChannels := recentChannels)
    {
      var checked := ChannelName.Validate(input);
      match checked {
        case Failure(reason) =>
          outcome := if reason == ChannelName.EmptyInput then InputFocused else NameRejected;
        case Success(channel) =>
          var url := EnterChannel(channel);
          outcome := NavigatedTo(url);
      }
    }

    /** The accepted branch of `openChat`, from `currentChannel = channel` to the navigation. */
    method EnterChannel(channel: string) returns (url: string)
      requires Valid()
      modifies this`currentChannel, this`recentChannels, this`store, this`recentHidden,
               this`recentButtons, this`effects
      ensures Valid()
      ensures currentChannel == channel
      ensures recentChannels == RecentChannels.AddRecent(old(recentChannels), channel)
      ensures url == ChannelName.PopoutUrl(channel, theme)
      ensures effects == old(effects)
                         + (if clickThrough then [SetClickThrough(true)] else [])
                         + [Navigate(url)]
      ensures Snapshot() == old(Snapshot()).(recentChannels := recentChannels)
      ensures store == if storageWritable then Parsed(Serialize(Snapshot())) else old(store)
      ensures !recentHidden && recentButtons == recentChannels
    {
      currentChannel := channel;
      AddToRecentChannels(channel);
      ghost var before := effects;
      if clickThrough {
        ClickThroughAfter(effects, SetClickThrough(true));
        effects := effects + [SetClickThrough(true)];
      }
      assert effects == before + (if clickThrough then [SetClickThrough(true)] else []);
      url := ChannelName.PopoutUrl(channel, theme);
      ClickThroughAfter(effects, Navigate(url));
      effects := effects + [Navigate(url)];
    }

    /** A recent-channel button: its label is put in the input box and `openChat` runs. */
    method ClickRecentButton(i: nat) returns (outcome: OpenOutcome)
      requires Valid()
      requires !recentHidden && i < |recentButtons|
      modifies this`currentChannel, this`recentChannels, this`store, this`recentHidden,
               this`recentButtons, this`effects
      ensures Valid()
      ensures ChannelName.Validate(old(recentButtons[i])) == Failure(ChannelName.EmptyInput) ==>
                outcome == InputFocused
      ensures ChannelName.Validate(old(recentButtons[i])) == Failure(ChannelName.InvalidName) ==>
                outcome == NameRejected
      ensures ChannelName.Validate(old(recentButtons[i])).Failure? ==>
                && currentChannel == old(currentChannel) && recentChannels == old(recentChannels)
                && store == old(store) && effects == old(effects)
                && recentHidden == old(recentHidden) && recentButtons == old(recentButtons)
      ensures ChannelName.Validate(old(recentButtons[i])).Success? ==>
                var name := ChannelName.Validate(old(recentButtons[i])).value;
                && currentChannel == name
                && recentChannels == RecentChannels.AddRecent(old(recentChannels), name)
                && outcome == NavigatedTo(ChannelName.PopoutUrl(name, theme))
                && effects == old(effects)
                              + (if clickThrough then [SetClickThrough(true)] else [])
                              + [Navigate(ChannelName.PopoutUrl(name, theme))]
                && store == (if storageWritable then Parsed(Serialize(Snapshot())) else old(store))
                && !recentHidden && recentButtons == recentChannels
      ensures Snapshot() == old(Snapshot()).(recentChannels := recentChannels)
    {
      outcome := OpenChat(recentButtons[i]);
    }
  }
}
