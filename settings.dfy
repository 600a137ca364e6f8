/**
 The settings screen: the hidden developer-options switch (tapping the app
 version seven times in quick succession), the checkboxes that write their
 value to the preference repository, and the merge of an overlay category
 into another category.

 Repository writes and toasts are recorded as effects, in the order the
 fragment starts them; the click time is a parameter.
 */
module Settings {
  import opened Optional
  import opened PreferenceOverlay

  /** A tap at least this long after the previous one starts counting again. */
  const TapWindowMillis := 1000

  /** The tap that enables developer options. */
  const DeveloperTapCount := 7

  /** The repository keys the screen writes. */
  datatype PreferenceKey =
    | NotificationDownload
    | NotificationDelete
    | NotificationSwitch
    | DisableSafeguardRemovableEsim
    | VerboseLogging
    | UnfilteredProfileList
    | IgnoreTlsCertificate
    | DeveloperOptionsEnabled

  datatype Toast = StepsRemaining(steps: int) | DeveloperOptionsEnabledToast

  datatype Effect = UpdatePreference(key: PreferenceKey, value: bool) | ShowToast(toast: Toast)

  const EnableDeveloperOptions := UpdatePreference(DeveloperOptionsEnabled, true)

  /** The checkbox preferences of the screen and the repository key each one is bound to. */
  function BoundKey(checkBox: string): (k: Option<PreferenceKey>)
    ensures k != Some(DeveloperOptionsEnabled)
  {
    if checkBox == "pref_notifications_download" then Some(NotificationDownload)
    else if checkBox == "pref_notifications_delete" then Some(NotificationDelete)
    else if checkBox == "pref_notifications_switch" then Some(NotificationSwitch)
    else if checkBox == "pref_advanced_disable_safeguard_removable_esim" then Some(DisableSafeguardRemovableEsim)
    else if checkBox == "pref_advanced_verbose_logging" then Some(VerboseLogging)
    else if checkBox == "pref_developer_unfiltered_profile_list" then Some(UnfilteredProfileList)
    else if checkBox == "pref_ignore_tls_certificate" then Some(IgnoreTlsCertificate)
    else None
  }

  /** No two checkboxes write the same key. */
  lemma BoundKeysDistinct(a: string, b: string)
    requires BoundKey(a).Some? && BoundKey(a) == BoundKey(b)
    ensures a == b
  {
  }

  /** The fragment's own state: the tap counter, whether the developer category is shown, and its effects so far. */
  datatype Fragment = Fragment(numClicks: int, lastClickTimestamp: int, developerPrefVisible: bool, effects: seq<Effect>)

  /** A fragment as created, before any tap; the developer category starts hidden. */
  function Fresh(): Fragment {
    Fragment(0, -1, false, [])
  }

  /** The fragment after handling an event, and the listener's boolean answer. */
  datatype Handled = Handled(after: Fragment, result: bool)

  /**
   What a tap that leaves the count at `n` starts: the repository write and
   its toast at the seventh tap, a "steps remaining" hint at the second to
   sixth (and past the seventh), nothing at the first.
   */
  function TapEffects(n: int): (e: seq<Effect>)
    ensures EnableDeveloperOptions in e <==> n == DeveloperTapCount
    ensures forall x :: x in e && x.UpdatePreference? ==> x == EnableDeveloperOptions
    ensures (exists x :: x in e && x.ShowToast? && x.toast.StepsRemaining?) <==> 1 < n && n != DeveloperTapCount
    ensures forall x :: x in e && x.ShowToast? && x.toast.StepsRemaining? ==> x.toast.steps == DeveloperTapCount - n
    ensures n <= 1 ==> e == []
  {
    if n == DeveloperTapCount then [EnableDeveloperOptions, ShowToast(DeveloperOptionsEnabledToast)]
    else if n > 1 then [ShowToast(StepsRemaining(DeveloperTapCount - n))]
    else []
  }

  /**
   onAppVersionClicked at time `now`: ignored (false) while the developer
   category is shown; otherwise the count restarts at 1 after a gap of a
   second or more and grows by one within it, the time is remembered, the
   tap's effects are started, and the click is consumed (true).
   */
  function AppVersionClicked(f: Fragment, now: int): (r: Handled)
    ensures r.result == !f.developerPrefVisible
    ensures f.developerPrefVisible ==> r.after == f
    ensures !f.developerPrefVisible ==>
      && r.after.numClicks == (if now - f.lastClickTimestamp >= TapWindowMillis then 1 else f.numClicks + 1)
      && r.after.lastClickTimestamp == now
      && r.after.developerPrefVisible == f.developerPrefVisible
      && r.after.effects == f.effects + TapEffects(r.after.numClicks)
  {
    if f.developerPrefVisible then Handled(f, false)
    else
      var n := if now - f.lastClickTimestamp >= TapWindowMillis then 1 else f.numClicks + 1;
      Handled(f.(numClicks := n, lastClickTimestamp := now, effects := f.effects + TapEffects(n)), true)
  }

  /** The change listener of the checkbox bound to `key`: the new value is written and the change accepted. */
  function CheckBoxChanged(f: Fragment, key: PreferenceKey, newValue: bool): (r: Handled)
    ensures r.result
    ensures r.after.effects == f.effects + [UpdatePreference(key, newValue)]
    ensures r.after.(effects := f.effects) == f
  {
    Handled(f.(effects := f.effects + [UpdatePreference(key, newValue)]), true)
  }

  /** Taps at the given times, in order, with the developer category hidden throughout. */
  function Taps(f: Fragment, times: seq<int>): (r: Fragment)
    requires !f.developerPrefVisible
    ensures !r.developerPrefVisible
    decreases |times|
  {
    if times == [] then f
    else AppVersionClicked(Taps(f, times[..|times| - 1]), times[|times| - 1]).after
  }

  /**
   The length of the burst the last tap ends: the taps at the end of `times`
   each less than a second after the one before.
   */
  function Burst(times: seq<int>): (n: nat)
    ensures n <= |times|
    ensures times != [] ==> n >= 1
    decreases |times|
  {
    if |times| <= 1 then |times|
    else if times[|times| - 1] - times[|times| - 2] < TapWindowMillis then Burst(times[..|times| - 1]) + 1
    else 1
  }

  /**
   On a fresh screen, the counter after any sequence of taps is the length
   of the burst the last tap ends, and the remembered time is the last tap's.
   */
  lemma {:induction false} TapCountIsBurst(times: seq<int>)
    ensures Taps(Fresh(), times).numClicks == Burst(times)
    ensures Taps(Fresh(), times).lastClickTimestamp == if times == [] then -1 else times[|times| - 1]
    decreases |times|
  {
    if times != [] {
      var init := times[..|times| - 1];
      TapCountIsBurst(init);
      if |times| >= 2 {
        assert init[|init| - 1] == times[|times| - 2];
      }
    }
  }

  /**
   A tap on a fresh screen writes the developer flag exactly when it is the
   seventh of its burst, shows the "steps remaining" hint for the second to
   sixth, and starts nothing else.
   */
  lemma LastTapEffects(times: seq<int>)
    requires times != []
    ensures Taps(Fresh(), times).effects == Taps(Fresh(), times[..|times| - 1]).effects + TapEffects(Burst(times))
    ensures EnableDeveloperOptions in TapEffects(Burst(times)) <==> Burst(times) == DeveloperTapCount
  {
    TapCountIsBurst(times);
  }

  /** How many times the developer flag is written among `effects`. */
  function DeveloperWrites(effects: seq<Effect>): nat
    decreases |effects|
  {
    if effects == [] then 0
    else DeveloperWrites(effects[..|effects| - 1]) + (if effects[|effects| - 1] == EnableDeveloperOptions then 1 else 0)
  }

  /** How many taps of `times` are the seventh of their burst. */
  function SeventhTaps(times: seq<int>): nat
    decreases |times|
  {
    if times == [] then 0
    else SeventhTaps(times[..|times| - 1]) + (if Burst(times) == DeveloperTapCount then 1 else 0)
  }

  lemma {:induction false} DeveloperWritesAppend(a: seq<Effect>, b: seq<Effect>)
    ensures DeveloperWrites(a + b) == DeveloperWrites(a) + DeveloperWrites(b)
    decreases |b|
  {
    if b == [] {
      assert a + b == a;
    } else {
      var front := b[..|b| - 1];
      assert (a + b)[..|a + b| - 1] == a + front;
      DeveloperWritesAppend(a, front);
    }
  }

  lemma DeveloperWritesOfTap(n: int)
    ensures DeveloperWrites(TapEffects(n)) == if n == DeveloperTapCount then 1 else 0
  {
    var e := TapEffects(n);
    if n == DeveloperTapCount {
      assert e[..1] == [EnableDeveloperOptions];
      assert [EnableDeveloperOptions][..0] == [];
      assert DeveloperWrites([EnableDeveloperOptions]) == 1;
      assert e[1] != EnableDeveloperOptions;
    } else if n > 1 {
      assert e[..0] == [];
    }
  }

  /**
   On a fresh screen, the developer flag is written once for every tap that
   is the seventh of its burst, and at no other tap.
   */
  lemma {:induction false} DeveloperFlagWrittenAtSeventhTaps(times: seq<int>)
    ensures DeveloperWrites(Taps(Fresh(), times).effects) == SeventhTaps(times)
    decreases |times|
  {
    if times != [] {
      var init := times[..|times| - 1];
      DeveloperFlagWrittenAtSeventhTaps(init);
      LastTapEffects(times);
      DeveloperWritesAppend(Taps(Fresh(), init).effects, TapEffects(Burst(times)));
      DeveloperWritesOfTap(Burst(times));
    }
  }

  ghost predicate QuickTaps(times: seq<int>) {
    forall i :: 0 < i < |times| ==> times[i] - times[i - 1] < TapWindowMillis
  }

  lemma {:induction false} BurstOfQuickTaps(times: seq<int>)
    requires QuickTaps(times)
    ensures Burst(times) == |times|
    decreases |times|
  {
    if |times| > 1 {
      var init := times[..|times| - 1];
      assert QuickTaps(init);
      BurstOfQuickTaps(init);
    }
  }

  lemma {:induction false} SeventhTapsOfQuickTaps(times: seq<int>)
    requires QuickTaps(times)
    ensures SeventhTaps(times) == if |times| >= DeveloperTapCount then 1 else 0
    decreases |times|
  {
    if times != [] {
      var init := times[..|times| - 1];
      assert QuickTaps(init);
      SeventhTapsOfQuickTaps(init);
      BurstOfQuickTaps(times);
    }
  }

  /**
   Taps each less than a second after the one before, on a fresh screen:
   fewer than seven never write the developer flag, seven or more write it
   exactly once.
   */
  lemma QuickTapsEnableOnce(times: seq<int>)
    requires QuickTaps(times)
    ensures DeveloperWrites(Taps(Fresh(), times).effects) == if |times| >= DeveloperTapCount then 1 else 0
  {
    DeveloperFlagWrittenAtSeventhTaps(times);
    SeventhTapsOfQuickTaps(times);
  }

  /** The settings fragment object. */
  class SettingsFragment {
    var numClicks: int
    var lastClickTimestamp: int
    var developerPrefVisible: bool
    var effects: seq<Effect>
    const preferenceScreen: PreferenceScreen

    constructor (screen: Hierarchy)
      ensures Model() == Fresh()
      ensures fresh(preferenceScreen) && preferenceScreen.Value() == screen
    {
      numClicks := 0;
      lastClickTimestamp := -1;
      developerPrefVisible := false;
      effects := [];
      preferenceScreen := new PreferenceScreen(screen);
    }

    function Model(): Fragment
      reads this
    {
      Fragment(numClicks, lastClickTimestamp, developerPrefVisible, effects)
    }

    /** The collector of the developer-options flow: the developer category follows the flag. */
    method OnDeveloperOptionsEnabled(enabled: bool)
      modifies this
      ensures Model() == old(Model()).(developerPrefVisible := enabled)
    {
      developerPrefVisible := enabled;
    }

    method OnAppVersionClicked(now: int) returns (handled: bool)
      modifies this
      ensures AppVersionClicked(old(Model()), now) == Handled(Model(), handled)
    {
      if developerPrefVisible {
        return false;
      }
      if now - lastClickTimestamp >= TapWindowMillis {
        numClicks := 1;
      } else {
        numClicks := numClicks + 1;
      }
      lastClickTimestamp := now;
      if numClicks == DeveloperTapCount {
        effects := effects + [EnableDeveloperOptions, ShowToast(DeveloperOptionsEnabledToast)];
      } else if numClicks > 1 {
        effects := effects + [ShowToast(StepsRemaining(DeveloperTapCount - numClicks))];
      }
      handled := true;
    }

    /** The change listener that bindBooleanFlow installs on the checkbox bound to `key`. */
    method OnCheckBoxChanged(key: PreferenceKey, newValue: bool) returns (accepted: bool)
      modifies this
      ensures CheckBoxChanged(old(Model()), key, newValue) == Handled(Model(), accepted)
    {
      effects := effects + [UpdatePreference(key, newValue)];
      accepted := true;
    }

    /** `crashed` is the NullPointerException of `!!` when a key names no category. */
    method MergePreferenceOverlay(overlayKey: Key, targetKey: Key) returns (crashed: bool)
      modifies preferenceScreen
      ensures crashed <==> Merged(old(preferenceScreen.Value()), overlayKey, targetKey).None?
      ensures crashed ==> preferenceScreen.Value() == old(preferenceScreen.Value())
      ensures !crashed ==> preferenceScreen.Value() == Merged(old(preferenceScreen.Value()), overlayKey, targetKey).value
    {
      var screen := preferenceScreen;
      if overlayKey !in screen.children || targetKey !in screen.children {
        return true;
      }
      crashed := false;
      ghost var h := screen.Value();

      var prefs: seq<Key> := [];
      var i := 0;
      while i < |screen.children[overlayKey]|
        invariant i <= |screen.children[overlayKey]|
        invariant prefs == screen.children[overlayKey][..i]
      {
        prefs := prefs + [screen.children[overlayKey][i]];
        i := i + 1;
      }
      assert prefs == h.children[overlayKey];

      var j := 0;
      while j < |prefs|
        invariant j <= |prefs|
        invariant screen.Value() == MovedAll(h, overlayKey, targetKey, prefs[..j])
      {
        screen.RemovePreference(overlayKey, prefs[j]);
        screen.AddPreference(targetKey, prefs[j]);
        MovedAllStep(h, overlayKey, targetKey, prefs, j);
        j := j + 1;
      }
      assert prefs[..|prefs|] == prefs;

      if overlayKey in screen.parent {
        screen.RemovePreference(screen.parent[overlayKey], overlayKey);
      }
    }
  }
}
