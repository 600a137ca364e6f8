# OpenEUICC: download wizard and settings screen, modelled in Dafny

This project models three pieces of sequential logic from OpenEUICC, an
Android eSIM manager.

- **Download-wizard navigation** (`DownloadWizardActivity`). The activity
  shows one step at a time. Next and Prev are gated by the step's `hasNext`
  and `hasPrev`. On Next the step's `beforeNext` hook runs before its
  `createNextFragment` factory. A missing successor or predecessor finishes
  the wizard. Otherwise the new step becomes current, its class name is
  written into the shared state, and its flags decide which buttons show.
  The back button performs Prev.
- **Wizard state persistence** (`onSaveInstanceState` and
  `onRestoreInstanceState`). The state record is written field by field into
  an Android `Bundle` and read back with the current value as fallback.
- **Settings screen** (`SettingsFragment`), in three parts:
  - the hidden developer-options switch, which is seven taps on the app
    version with less than a second between taps;
  - the checkboxes, each of which writes its new value to the preference
    repository;
  - `mergePreferenceOverlay`, which moves every preference of one category
    to the end of another and then detaches the emptied category.

Modules:

- `Optional`: the `Option` type, which stands in for Kotlin's nullable
  types.
- `Bundles`: `Bundle` as a map from keys to typed values. Each getter falls
  back to its default when the key is absent or holds a value of another
  type. `getString` also falls back when the key holds an explicit null.
- `WizardState`: the state record as a value (`StateValue`) and as the
  mutable `DownloadWizardState` class, plus its initial value, `Save` and
  `Restore`, and the round-trip lemmas.
- `DownloadWizard`: the activity class `DownloadWizardActivity`. Each method
  is proved equal to a function on a `Screen` snapshot of the activity. The
  lemmas about those functions cover single presses and whole sessions of
  presses.
- `PreferenceOverlay`: the preference tree as maps, keyed by preference key.
  It has `removePreference` and `addPreference`, an in-place
  `PreferenceScreen` class, and the merge specification with its lemmas.
- `Settings`: the tap counter and its lemmas over sequences of tap times,
  the checkbox listener, and the `SettingsFragment` class. That class holds
  a `PreferenceScreen` and performs the merge with the source's two loops.

The concrete wizard steps are not modelled. A `StepClasses` value supplies
four things: how a step is built from its class name, its `beforeNext`
hook, and its two factories. Every call the activity makes into a step is
recorded in a trace, so call order can be stated. `finish()` is a
`finished` flag. Repository writes and toasts are recorded as effects, and
the time of a tap is a parameter.

Whether persistence was meant to be symmetric is an open question. The
model follows the code:

- the confirmation code is saved but never restored;
- the download error is neither saved nor restored.

`ConfirmationCodeSavedButLost` states this.

## Model

All source paths are under `app-common/src/main/java/im/angry/openeuicc/ui/`.

| member | source | states |
|---|---|---|
| WizardState.InitialState | app-common/src/main/java/im/angry/openeuicc/ui/wizard/DownloadWizardActivity.kt:56-66 | The slot is the launch extra when it holds an `Int`, and 0 when it is missing or of another type. The step name, matching id, confirmation code, IMEI and error are null. The SM-DP+ address is "", `downloadStarted` is false and the task id is -1. |
| WizardState.Save | app-common/src/main/java/im/angry/openeuicc/ui/wizard/DownloadWizardActivity.kt:106-116 | The saved bundle holds exactly the incoming keys plus the eight state keys. Other entries are kept. The confirmation code is written. No key exists for the download error. |
| WizardState.Restore | app-common/src/main/java/im/angry/openeuicc/ui/wizard/DownloadWizardActivity.kt:118-132 | Key by key: each of the seven restored fields takes the bundle's value when its key holds a value of the field's type (for strings, a non-null one), and otherwise keeps its current value. The confirmation code and download error never change, and a bundle without any state key leaves the state as it was. |
| WizardState.RestoreAfterSave | app-common/src/main/java/im/angry/openeuicc/ui/wizard/DownloadWizardActivity.kt:106-132 | Save then restore brings back the slot, address, download flag and task id. The nullable step name, matching id and IMEI come back unless they were null; a null reads back as the current value. The confirmation code and error keep the values of the state restored into. |
| WizardState.RestoreIntoFreshState | app-common/src/main/java/im/angry/openeuicc/ui/wizard/DownloadWizardActivity.kt:56-132 | Restoring a saved state into a freshly created one gives back the saved state, except that the confirmation code and download error are empty. |
| WizardState.ConfirmationCodeSavedButLost | app-common/src/main/java/im/angry/openeuicc/ui/wizard/DownloadWizardActivity.kt:112-128 | A non-null confirmation code is written to the bundle, yet it is lost when the activity is recreated. |
| WizardState.DownloadWizardState.constructor | app-common/src/main/java/im/angry/openeuicc/ui/wizard/DownloadWizardActivity.kt:19-29 | The record holds exactly the nine given field values. |
| WizardState.DownloadWizardState.Assign | app-common/src/main/java/im/angry/openeuicc/ui/wizard/DownloadWizardActivity.kt:195-197 | A step writing the shared state it reaches through the activity: afterwards the record holds exactly the written values. |
| DownloadWizard.Created | app-common/src/main/java/im/angry/openeuicc/ui/wizard/DownloadWizardActivity.kt:45-66 | onCreate creates the initial state from the extras and changes nothing else. |
| DownloadWizard.WithCurrent | app-common/src/main/java/im/angry/openeuicc/ui/wizard/DownloadWizardActivity.kt:37-43 | Setting the current step writes its class name into an initialised state, and clears the name for null. No other state field changes. Before the state exists, only the step changes. |
| DownloadWizard.ButtonsRefreshed | app-common/src/main/java/im/angry/openeuicc/ui/wizard/DownloadWizardActivity.kt:180-193 | Next is visible iff the current step has a next step, and Prev iff it has a previous one. With no current step nothing changes. |
| DownloadWizard.Shown | app-common/src/main/java/im/angry/openeuicc/ui/wizard/DownloadWizardActivity.kt:168-178 | The step becomes current and its name is recorded in the state. The buttons follow its flags, so the screen is consistent. The progress bar, finish flag and step calls are unchanged. |
| DownloadWizard.AfterNext | app-common/src/main/java/im/angry/openeuicc/ui/wizard/DownloadWizardActivity.kt:145-155 | With no current step, or `hasNext` false, nothing changes. Otherwise `beforeNext` runs once, followed at once by `createNextFragment` on the hooked state. No successor finishes the wizard and leaves the current step as it was. A successor is shown. |
| DownloadWizard.AfterPrev | app-common/src/main/java/im/angry/openeuicc/ui/wizard/DownloadWizardActivity.kt:134-143 | Gated by `hasPrev`, with no hook. Only `createPrevFragment` is called. No predecessor finishes the wizard; a predecessor is shown. |
| DownloadWizard.Initialised | app-common/src/main/java/im/angry/openeuicc/ui/wizard/DownloadWizardActivity.kt:157-166 | The progress bar is hidden. The step named in the state is rebuilt and shown, or the slot-selection step when no name is stored. The result is consistent. |
| DownloadWizard.WentToNext | app-common/src/main/java/im/angry/openeuicc/ui/wizard/DownloadWizardActivity.kt:204-211 | A given step is shown with no factory call. Otherwise the factory's step is shown. The call crashes iff both are null. There is no `hasNext` gate and no hook. |
| DownloadWizard.ProgressShown | app-common/src/main/java/im/angry/openeuicc/ui/wizard/DownloadWizardActivity.kt:217-227 | The bar becomes visible and keeps its maximum. A value from 0 to the maximum becomes determinate progress; a larger value shows the maximum, as `setProgress` clamps it. A negative value makes the bar indeterminate and keeps the old progress. Progress within range stays within range. |
| DownloadWizard.ProgressHidden | app-common/src/main/java/im/angry/openeuicc/ui/wizard/DownloadWizardActivity.kt:213-215 | The bar is hidden and nothing else changes. |
| DownloadWizard.Restored | app-common/src/main/java/im/angry/openeuicc/ui/wizard/DownloadWizardActivity.kt:118-132 | Only the shared state changes, and it becomes `Restore` of the bundle. |
| DownloadWizard.PressKeepsConsistent | app-common/src/main/java/im/angry/openeuicc/ui/wizard/DownloadWizardActivity.kt:134-155 | One press of Next, Prev or Back keeps two things true: the recorded step name is the step on screen, and the buttons follow its flags. A finished wizard stays finished. |
| DownloadWizard.SessionKeepsStepRecorded | app-common/src/main/java/im/angry/openeuicc/ui/wizard/DownloadWizardActivity.kt:134-193 | The same holds over any sequence of presses. |
| DownloadWizard.PressAppendsPair | app-common/src/main/java/im/angry/openeuicc/ui/wizard/DownloadWizardActivity.kt:134-155 | One press adds one of three things to the calls already made: nothing, one `createPrevFragment`, or `beforeNext` directly followed by the same step's `createNextFragment`. |
| DownloadWizard.SessionPairsHooks | app-common/src/main/java/im/angry/openeuicc/ui/wizard/DownloadWizardActivity.kt:145-155 | Over any sequence of presses, step calls are only appended. Every `beforeNext` is directly followed by its `createNextFragment`, and no `createNextFragment` happens without its hook. |
| DownloadWizard.RecreatedWizardResumesStep | app-common/src/main/java/im/angry/openeuicc/ui/wizard/DownloadWizardActivity.kt:106-166 | A recreated activity that restores the saved bundle and then initialises shows the step that was current, or slot selection if none was. Its state equals the saved one except for the confirmation code and download error. |
| DownloadWizard.DownloadWizardActivity.constructor | app-common/src/main/java/im/angry/openeuicc/ui/wizard/DownloadWizardActivity.kt:31-37 | No state and no current step exist; nothing is finished or called. |
| DownloadWizard.DownloadWizardActivity.OnCreate | app-common/src/main/java/im/angry/openeuicc/ui/wizard/DownloadWizardActivity.kt:45-66 | A fresh state record holding `Created`. |
| DownloadWizard.DownloadWizardActivity.SetCurrentFragment | app-common/src/main/java/im/angry/openeuicc/ui/wizard/DownloadWizardActivity.kt:37-43 | The activity becomes `WithCurrent` of its old snapshot. |
| DownloadWizard.DownloadWizardActivity.RefreshButtons | app-common/src/main/java/im/angry/openeuicc/ui/wizard/DownloadWizardActivity.kt:180-193 | The activity becomes `ButtonsRefreshed` of its old snapshot. |
| DownloadWizard.DownloadWizardActivity.ShowFragment | app-common/src/main/java/im/angry/openeuicc/ui/wizard/DownloadWizardActivity.kt:168-178 | The activity becomes `Shown`. |
| DownloadWizard.DownloadWizardActivity.OnSaveInstanceState | app-common/src/main/java/im/angry/openeuicc/ui/wizard/DownloadWizardActivity.kt:106-116 | Returns `Save` of the current state and changes nothing. |
| DownloadWizard.DownloadWizardActivity.OnRestoreInstanceState | app-common/src/main/java/im/angry/openeuicc/ui/wizard/DownloadWizardActivity.kt:118-132 | The record is updated in place to `Restored`. |
| DownloadWizard.DownloadWizardActivity.OnPrevPressed | app-common/src/main/java/im/angry/openeuicc/ui/wizard/DownloadWizardActivity.kt:134-143 | The activity becomes `AfterPrev`. |
| DownloadWizard.DownloadWizardActivity.OnNextPressed | app-common/src/main/java/im/angry/openeuicc/ui/wizard/DownloadWizardActivity.kt:145-155 | The activity becomes `AfterNext`, with the hook writing the shared record in place. |
| DownloadWizard.DownloadWizardActivity.OnBackPressed | app-common/src/main/java/im/angry/openeuicc/ui/wizard/DownloadWizardActivity.kt:49-53 | Back is exactly Prev: the activity becomes `AfterPrev`. |
| DownloadWizard.DownloadWizardActivity.OnInit | app-common/src/main/java/im/angry/openeuicc/ui/wizard/DownloadWizardActivity.kt:157-166 | The activity becomes `Initialised`. |
| DownloadWizard.DownloadWizardActivity.GotoNextFragment | app-common/src/main/java/im/angry/openeuicc/ui/wizard/DownloadWizardActivity.kt:204-211 | Crashes iff `WentToNext` is None, and otherwise becomes its value. After a crash, only the factory call is recorded. |
| DownloadWizard.DownloadWizardActivity.ShowProgressBar | app-common/src/main/java/im/angry/openeuicc/ui/wizard/DownloadWizardActivity.kt:217-227 | The activity becomes `ProgressShown`. |
| DownloadWizard.DownloadWizardActivity.HideProgressBar | app-common/src/main/java/im/angry/openeuicc/ui/wizard/DownloadWizardActivity.kt:213-215 | The activity becomes `ProgressHidden`. |
| PreferenceOverlay.IndexOf | app-common/src/main/java/im/angry/openeuicc/ui/SettingsFragment.kt:151 | The position returned holds the preference, and no earlier position does. |
| PreferenceOverlay.RemoveFirst | app-common/src/main/java/im/angry/openeuicc/ui/SettingsFragment.kt:151 | A list without the preference is unchanged. Otherwise exactly its first occurrence is taken out, and the elements before and after it keep their order. |
| PreferenceOverlay.RemoveFirstOfDistinct | app-common/src/main/java/im/angry/openeuicc/ui/SettingsFragment.kt:155 | In a list without duplicates, removal leaves no occurrence. |
| PreferenceOverlay.Removed | app-common/src/main/java/im/angry/openeuicc/ui/SettingsFragment.kt:151 | The preference leaves the group's list. Its parent link is dropped iff it pointed to that group. |
| PreferenceOverlay.Added | app-common/src/main/java/im/angry/openeuicc/ui/SettingsFragment.kt:152 | The preference is appended to the group's list, and the group becomes its parent. |
| PreferenceOverlay.Moved | app-common/src/main/java/im/angry/openeuicc/ui/SettingsFragment.kt:150-153 | One loop iteration creates and deletes no group. |
| PreferenceOverlay.MovedAll | app-common/src/main/java/im/angry/openeuicc/ui/SettingsFragment.kt:150-153 | The whole loop creates and deletes no group. |
| PreferenceOverlay.MovedAllStep | app-common/src/main/java/im/angry/openeuicc/ui/SettingsFragment.kt:150-153 | The loop after one more preference is one more remove-then-append, applied to the loop so far. |
| PreferenceOverlay.Detached | app-common/src/main/java/im/angry/openeuicc/ui/SettingsFragment.kt:155 | The overlay loses its parent link and its first occurrence leaves its parent's list. No other list changes, and every other parent link keeps its key and value. A parentless overlay changes nothing. |
| PreferenceOverlay.Merged | app-common/src/main/java/im/angry/openeuicc/ui/SettingsFragment.kt:140-156 | The merge succeeds iff both keys name a category. |
| PreferenceOverlay.MoveOne | app-common/src/main/java/im/angry/openeuicc/ui/SettingsFragment.kt:150-153 | Moving the overlay's first preference shifts it from the overlay's front to the target's end. |
| PreferenceOverlay.MovedAllChildren | app-common/src/main/java/im/angry/openeuicc/ui/SettingsFragment.kt:150-153 | After the loop has moved any prefix of the overlay's list, the overlay holds the rest. The target holds its own children followed by that prefix, in order. |
| PreferenceOverlay.MovedAllParents | app-common/src/main/java/im/angry/openeuicc/ui/SettingsFragment.kt:150-153 | Every moved preference has the target as its parent, and no other parent link changes. |
| PreferenceOverlay.MergeFrame | app-common/src/main/java/im/angry/openeuicc/ui/SettingsFragment.kt:140-156 | The merge creates or deletes no group. It leaves the list of every group other than the overlay, the target and the overlay's parent unchanged. Every parent link other than the overlay's and the moved preferences' keeps its key and value. |
| PreferenceOverlay.MergeOverlay | app-common/src/main/java/im/angry/openeuicc/ui/SettingsFragment.kt:140-156 | After the merge, the target holds its old children followed by all of the overlay's, in order (with the overlay itself then removed when the target was its parent). The overlay is empty, has no parent, and its first occurrence is gone from its former parent's list. All moved preferences belong to the target. The set of groups, every other group's list, and every other parent link are unchanged. |
| PreferenceOverlay.PreferenceScreen.constructor | app-common/src/main/java/im/angry/openeuicc/ui/SettingsFragment.kt:32 | The screen holds the given tree, as inflated from the preference XML. |
| PreferenceOverlay.PreferenceScreen.RemovePreference | app-common/src/main/java/im/angry/openeuicc/ui/SettingsFragment.kt:151 | Updates the tree in place to `Removed`. |
| PreferenceOverlay.PreferenceScreen.AddPreference | app-common/src/main/java/im/angry/openeuicc/ui/SettingsFragment.kt:152 | Updates the tree in place to `Added`. |
| Settings.BoundKey | app-common/src/main/java/im/angry/openeuicc/ui/SettingsFragment.kt:62-81 | The seven checkboxes are bound to their repository keys. None is bound to the developer-options flag. |
| Settings.BoundKeysDistinct | app-common/src/main/java/im/angry/openeuicc/ui/SettingsFragment.kt:62-81 | No two checkboxes write the same key. |
| Settings.TapEffects | app-common/src/main/java/im/angry/openeuicc/ui/SettingsFragment.kt:100-122 | The developer flag is written iff the count is 7, and no other key is written. A "steps remaining" hint appears iff the count is above 1 and not 7, and it shows 7 minus the count. A count of 1 starts nothing. |
| Settings.AppVersionClicked | app-common/src/main/java/im/angry/openeuicc/ui/SettingsFragment.kt:90-125 | With developer options visible, a tap returns false and changes nothing. Otherwise it returns true. A gap of 1000 ms or more resets the count to 1; a shorter gap adds one. The time becomes `now`, and the tap's effects are appended. |
| Settings.CheckBoxChanged | app-common/src/main/java/im/angry/openeuicc/ui/SettingsFragment.kt:127-138 | The change writes exactly its new value to its key, and is accepted. |
| Settings.Taps | app-common/src/main/java/im/angry/openeuicc/ui/SettingsFragment.kt:90-98 | The developer category stays hidden through a sequence of taps. |
| Settings.Burst | app-common/src/main/java/im/angry/openeuicc/ui/SettingsFragment.kt:93-97 | The burst ending at the last tap has at least one tap and at most all of them. |
| Settings.TapCountIsBurst | app-common/src/main/java/im/angry/openeuicc/ui/SettingsFragment.kt:27-98 | From the initial 0 and -1, the counter after any taps is the length of the quick burst the last tap ends. The timestamp is the last tap's time. |
| Settings.LastTapEffects | app-common/src/main/java/im/angry/openeuicc/ui/SettingsFragment.kt:100-105 | A tap writes the developer flag iff it is the seventh of its burst. |
| Settings.DeveloperWritesOfTap | app-common/src/main/java/im/angry/openeuicc/ui/SettingsFragment.kt:100-105 | One tap writes the developer flag once at count 7, and never at any other count. |
| Settings.DeveloperFlagWrittenAtSeventhTaps | app-common/src/main/java/im/angry/openeuicc/ui/SettingsFragment.kt:90-125 | Over any sequence of taps, the number of developer-flag writes equals the number of taps that are the seventh of their burst. |
| Settings.BurstOfQuickTaps | app-common/src/main/java/im/angry/openeuicc/ui/SettingsFragment.kt:93-97 | When every gap is under a second, the burst is all the taps. |
| Settings.SeventhTapsOfQuickTaps | app-common/src/main/java/im/angry/openeuicc/ui/SettingsFragment.kt:93-105 | With every gap under a second, exactly one tap is a seventh once there are seven or more. |
| Settings.QuickTapsEnableOnce | app-common/src/main/java/im/angry/openeuicc/ui/SettingsFragment.kt:46-47 | Quick taps write the developer flag exactly once if there are seven or more, and never if there are fewer. |
| Settings.SettingsFragment.constructor | app-common/src/main/java/im/angry/openeuicc/ui/SettingsFragment.kt:23-34 | The counter is 0, the timestamp -1 and the developer category hidden. No effects exist yet, and the screen holds the given tree. |
| Settings.SettingsFragment.OnDeveloperOptionsEnabled | app-common/src/main/java/im/angry/openeuicc/ui/SettingsFragment.kt:37-41 | The developer category's visibility becomes the flag, and nothing else changes. |
| Settings.SettingsFragment.OnAppVersionClicked | app-common/src/main/java/im/angry/openeuicc/ui/SettingsFragment.kt:90-125 | The fields and the answer are exactly those of `AppVersionClicked`. |
| Settings.SettingsFragment.OnCheckBoxChanged | app-common/src/main/java/im/angry/openeuicc/ui/SettingsFragment.kt:132-137 | The fields and the answer are exactly those of `CheckBoxChanged`. |
| Settings.SettingsFragment.MergePreferenceOverlay | app-common/src/main/java/im/angry/openeuicc/ui/SettingsFragment.kt:140-156 | The two loops and the detach change the screen in place to `Merged`. It crashes with the screen untouched iff either key names no category. |

## Left out

- Window-inset listeners, padding, `enableEdgeToEdge`, fragment transactions and slide animations: view plumbing with no effect on navigation.
- `Class.forName` in `onInit`: the step is rebuilt by the `instantiate` function of `StepClasses`, so an unknown class name (which throws) is not modelled.
- Concrete step fragments: they are not part of this model. Their flags, hooks and factories are supplied as a `StepClasses` value, and each step's `hasNext` and `hasPrev` are fixed values rather than getters that might read the state.
- A `beforeNext` hook that itself navigates (re-enters the activity) is not modelled: the hook only updates the shared state.
- `PressKeepsConsistent`, `SessionKeepsStepRecorded`: assume the hooks do not rewrite the recorded step name, which the activity alone writes.
- Initial view visibilities come from layout XML that is not part of this model: both buttons and the progress bar are taken as visible, and the developer category as hidden until the repository flow reports its flag.
- Toasts are recorded as effects. `lastToast` cancellation, and the delay of the coroutine that writes the developer flag and shows its toast, are not modelled.
- Coroutines and Flow: `lifecycleScope`, `runBlocking`, the checkbox side that follows the repository flow, and the collector of the developer flag are left out. The collector appears only as `OnDeveloperOptionsEnabled`.
- `System.currentTimeMillis`: the click time is a parameter.
- The app version summary, the language picker with its SDK version check, the logs entry and the preference XML inflation: no logic beyond wiring. `LogsActivity.kt` is not part of this model.
- `AppVersionClicked`: does not model 64-bit overflow of `now - lastClickTimestamp` or 32-bit overflow of `numClicks`, because integers are unbounded here.
- `Added`: androidx orders preferences by their `order` attribute and rejects some duplicates. Here a preference added to a category is appended, as the loop's in-order iteration relies on.
- `Merged`: `findPreference` searches the whole tree and casts to a category. Here a key either names a group of the tree or is missing. A preference that is not a category is not modelled.
- `MergeOverlay`: states the result only when the overlay is not its own child and differs from the target. `Merged` covers every case.
- `InitialState`, `Save`, `Restore`: Kotlin `Int` and `Long` widths are not modelled; both are unbounded integers, though a `Long` still reads back only as a `Long`.
- ProgressShown: the bar's maximum comes from a layout that is not part of this model; it is taken as `ProgressBar`'s default of 100 and the minimum as 0.
- Preference identity: androidx removes a preference by object identity, but here every preference is identified by its key. Preferences without a key, and two preferences sharing one key (which androidx only logs), are not modelled.
