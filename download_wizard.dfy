/**
 The eSIM download wizard's activity: it shows one step at a time, moves
 between steps when the user presses Next, Prev or Back, records the current
 step in the shared state, and shows the navigation buttons the step allows.

 The concrete step classes are not part of this model; their behaviour is a
 `StepClasses` value the activity is given.
 */
module DownloadWizard {
  import opened Optional
  import opened Bundles
  import opened WizardState

  /** The fully qualified name of a step class, which is how the state records a step. */
  type ClassName = string

  const SlotSelectFragment: ClassName := "im.angry.openeuicc.ui.wizard.DownloadWizardSlotSelectFragment"

  /** What the activity sees of a step: its class and whether it offers Next and Prev. */
  datatype Step = Step(className: ClassName, hasNext: bool, hasPrev: bool)

  /**
   The step contract, as implemented by the concrete steps: building a step
   from its class name with its no-argument constructor, the `beforeNext`
   hook (which may update the shared state), and the two factories, which
   give the adjacent step or None at the wizard's boundary.
   */
  datatype StepClasses = StepClasses(
    instantiate: ClassName -> Step,
    beforeNext: (Step, StateValue) -> StateValue,
    createNext: (Step, StateValue) -> Option<Step>,
    createPrev: (Step, StateValue) -> Option<Step>)
  {
    /** Reflection builds an instance of exactly the class it is asked for. */
    ghost predicate InstantiatesByName() {
      forall n :: instantiate(n).className == n
    }

    /** A step's hook commits its own input, not the name of the current step. */
    ghost predicate BeforeNextKeepsStepName() {
      forall c, s :: beforeNext(c, s).currentStepFragmentClassName == s.currentStepFragmentClassName
    }
  }

  /** A call the activity makes into the current step, in the order made. */
  datatype StepCall = BeforeNext(step: ClassName) | CreateNext(step: ClassName) | CreatePrev(step: ClassName)

  /** Android's `ProgressBar`: `setProgress` keeps the value within `[0, max]` (the minimum is left at 0). */
  datatype ProgressBar = ProgressBar(visible: bool, indeterminate: bool, progress: int, max: nat)

  /** The default range of a `ProgressBar`: the layout sets no other. */
  const DefaultProgressMax: nat := 100

  /**
   The activity at one moment: the shared state (None before onCreate), the
   current step, the visibility of the two buttons and of the progress bar,
   whether `finish()` was called, and the calls made into steps so far.
   */
  datatype Screen = Screen(
    state: Option<StateValue>,
    current: Option<Step>,
    nextVisible: bool,
    prevVisible: bool,
    progressBar: ProgressBar,
    finished: bool,
    calls: seq<StepCall>)

  /** A step is only ever shown once the state exists. */
  ghost predicate WellFormed(a: Screen) {
    a.current.Some? ==> a.state.Some?
  }

  /** The recorded step name, and the buttons, agree with the step on screen. */
  ghost predicate Consistent(a: Screen) {
    a.current.Some? ==>
      && a.state.Some?
      && a.state.value.currentStepFragmentClassName == Some(a.current.value.className)
      && a.nextVisible == a.current.value.hasNext
      && a.prevVisible == a.current.value.hasPrev
  }

  function NameOf(v: Option<Step>): Option<ClassName> {
    if v.Some? then Some(v.value.className) else None
  }

  /** The activity as constructed, before onCreate; the views are as the layout inflates them. */
  function Unstarted(): Screen {
    Screen(None, None, true, true, ProgressBar(true, true, 0, DefaultProgressMax), false, [])
  }

  /** onCreate: the shared state is built from the launching intent's extras. */
  function Created(a: Screen, extras: Bundle): (r: Screen)
    ensures r.state == Some(InitialState(extras))
    ensures r.(state := a.state) == a
  {
    a.(state := Some(InitialState(extras)))
  }

  /** The `currentFragment` setter: it also writes the step's class name into an initialised state. */
  function WithCurrent(a: Screen, v: Option<Step>): (r: Screen)
    ensures r.current == v
    ensures a.state.Some? ==> r.state.Some? && r.state.value.currentStepFragmentClassName == NameOf(v)
    ensures a.state.Some? ==> r.state.value.(currentStepFragmentClassName := a.state.value.currentStepFragmentClassName) == a.state.value
    ensures a.state.None? ==> r.state.None?
    ensures r.(state := a.state, current := a.current) == a
  {
    a.(state := if a.state.Some? then Some(a.state.value.(currentStepFragmentClassName := NameOf(v))) else None,
       current := v)
  }

  /** refreshButtons: each button is visible exactly when the current step offers its direction. */
  function ButtonsRefreshed(a: Screen): (r: Screen)
    ensures a.current.Some? ==> r.nextVisible == a.current.value.hasNext && r.prevVisible == a.current.value.hasPrev
    ensures a.current.None? ==> r == a
    ensures r.(nextVisible := a.nextVisible, prevVisible := a.prevVisible) == a
  {
    if a.current.Some? then a.(nextVisible := a.current.value.hasNext, prevVisible := a.current.value.hasPrev)
    else a
  }

  /** showFragment: the step becomes current, is recorded in the state, and decides the buttons. */
  function Shown(a: Screen, step: Step): (r: Screen)
    ensures r.current == Some(step)
    ensures r.nextVisible == step.hasNext && r.prevVisible == step.hasPrev
    ensures a.state.Some? ==> r.state == Some(a.state.value.(currentStepFragmentClassName := Some(step.className)))
    ensures a.state.Some? ==> Consistent(r)
    ensures r.progressBar == a.progressBar && r.finished == a.finished && r.calls == a.calls
  {
    ButtonsRefreshed(WithCurrent(a, Some(step)))
  }

  predicate CanGoNext(a: Screen) {
    a.current.Some? && a.current.value.hasNext
  }

  predicate CanGoPrev(a: Screen) {
    a.current.Some? && a.current.value.hasPrev
  }

  /**
   onNextPressed: gated by the current step's `hasNext`; the hook runs once,
   then the factory; no successor finishes the wizard on the same step,
   otherwise the successor is shown.
   */
  function AfterNext(a: Screen, steps: StepClasses): (r: Screen)
    requires WellFormed(a)
    ensures WellFormed(r)
    ensures !CanGoNext(a) ==> r == a
    ensures CanGoNext(a) ==>
      var c := a.current.value;
      var s := steps.beforeNext(c, a.state.value);
      var next := steps.createNext(c, s);
      var hooked := a.(state := Some(s), calls := a.calls + [BeforeNext(c.className), CreateNext(c.className)]);
      && r.calls == hooked.calls
      && (next.None? ==> r == hooked.(finished := true))
      && (next.Some? ==> r == Shown(hooked, next.value) && r.finished == a.finished)
  {
    if CanGoNext(a) then
      var c := a.current.value;
      var s := steps.beforeNext(c, a.state.value);
      var hooked := a.(state := Some(s), calls := a.calls + [BeforeNext(c.className), CreateNext(c.className)]);
      match steps.createNext(c, s)
      case None => hooked.(finished := true)
      case Some(next) => Shown(hooked, next)
    else
      a
  }

  /**
   onPrevPressed: gated by `hasPrev`, with no hook; no predecessor finishes
   the wizard (the user leaves it), otherwise the predecessor is shown.
   */
  function AfterPrev(a: Screen, steps: StepClasses): (r: Screen)
    requires WellFormed(a)
    ensures WellFormed(r)
    ensures !CanGoPrev(a) ==> r == a
    ensures CanGoPrev(a) ==>
      var c := a.current.value;
      var prev := steps.createPrev(c, a.state.value);
      var asked := a.(calls := a.calls + [CreatePrev(c.className)]);
      && r.calls == asked.calls
      && (prev.None? ==> r == asked.(finished := true))
      && (prev.Some? ==> r == Shown(asked, prev.value) && r.finished == a.finished)
  {
    if CanGoPrev(a) then
      var c := a.current.value;
      var asked := a.(calls := a.calls + [CreatePrev(c.className)]);
      match steps.createPrev(c, a.state.value)
      case None => asked.(finished := true)
      case Some(prev) => Shown(asked, prev)
    else
      a
  }

  /**
   onInit: hides the progress bar and shows the step named in the state, or
   the slot-selection step when none is named.
   */
  function Initialised(a: Screen, steps: StepClasses): (r: Screen)
    requires a.state.Some?
    ensures !r.progressBar.visible
    ensures a.state.value.currentStepFragmentClassName.None? ==> r.current == Some(steps.instantiate(SlotSelectFragment))
    ensures a.state.value.currentStepFragmentClassName.Some? ==>
              r.current == Some(steps.instantiate(a.state.value.currentStepFragmentClassName.value))
    ensures Consistent(r) && r.current.Some?
    ensures r.finished == a.finished && r.calls == a.calls
  {
    var hidden := a.(progressBar := a.progressBar.(visible := false));
    match a.state.value.currentStepFragmentClassName
    case Some(name) => Shown(hidden, steps.instantiate(name))
    case None => Shown(hidden, steps.instantiate(SlotSelectFragment))
  }

  /**
   gotoNextFragment, called by the step on screen: shows the given step, or
   else the one its factory makes, with neither the `hasNext` gate nor the
   hook. None stands for the NullPointerException thrown when both are null.
   */
  function WentToNext(a: Screen, steps: StepClasses, next: Option<Step>): (r: Option<Screen>)
    requires WellFormed(a) && a.current.Some?
    ensures r.None? <==> next.None? && steps.createNext(a.current.value, a.state.value).None?
    ensures next.Some? ==> r == Some(Shown(a, next.value))
    ensures next.None? && r.Some? ==>
      r.value == Shown(a.(calls := a.calls + [CreateNext(a.current.value.className)]),
                              steps.createNext(a.current.value, a.state.value).value)
  {
    if next.Some? then Some(Shown(a, next.value))
    else
      var c := a.current.value;
      var asked := a.(calls := a.calls + [CreateNext(c.className)]);
      match steps.createNext(c, a.state.value)
      case None => None
      case Some(made) => Some(Shown(asked, made))
  }

  /**
   showProgressBar: a value of zero or more is shown as progress, cut down to
   the bar's maximum as `setProgress` does; a negative one makes the bar
   indeterminate.
   */
  function ProgressShown(a: Screen, progressValue: int): (r: Screen)
    ensures r.progressBar.visible && r.progressBar.max == a.progressBar.max
    ensures 0 <= progressValue <= a.progressBar.max ==> !r.progressBar.indeterminate && r.progressBar.progress == progressValue
    ensures progressValue > a.progressBar.max ==> !r.progressBar.indeterminate && r.progressBar.progress == a.progressBar.max
    ensures progressValue < 0 ==> r.progressBar.indeterminate && r.progressBar.progress == a.progressBar.progress
    ensures 0 <= a.progressBar.progress <= a.progressBar.max ==> 0 <= r.progressBar.progress <= r.progressBar.max
    ensures r.(progressBar := a.progressBar) == a
  {
    var bar := a.progressBar.(visible := true);
    a.(progressBar := if progressValue >= 0 then bar.(indeterminate := false, progress := if progressValue > bar.max then bar.max else progressValue)
                      else bar.(indeterminate := true))
  }

  function ProgressHidden(a: Screen): (r: Screen)
    ensures !r.progressBar.visible
    ensures r.progressBar.(visible := a.progressBar.visible) == a.progressBar
    ensures r.(progressBar := a.progressBar) == a
  {
    a.(progressBar := a.progressBar.(visible := false))
  }

  /** onRestoreInstanceState applied to the activity. */
  function Restored(a: Screen, b: Bundle): (r: Screen)
    requires a.state.Some?
    ensures r.state == Some(Restore(b, a.state.value))
    ensures r.(state := a.state) == a
  {
    a.(state := Some(Restore(b, a.state.value)))
  }

  /** What the user can press; the system back button is wired to Prev. */
  datatype Press = NextButton | PrevButton | BackButton

  function Pressed(a: Screen, steps: StepClasses, p: Press): (r: Screen)
    requires WellFormed(a)
    ensures WellFormed(r)
  {
    match p
    case NextButton => AfterNext(a, steps)
    case PrevButton => AfterPrev(a, steps)
    case BackButton => AfterPrev(a, steps)
  }

  /** A session: the presses applied in order. */
  function Run(a: Screen, steps: StepClasses, presses: seq<Press>): (r: Screen)
    requires WellFormed(a)
    ensures WellFormed(r)
    decreases |presses|
  {
    if presses == [] then a else Run(Pressed(a, steps, presses[0]), steps, presses[1..])
  }

  /**
   The calls a session makes into steps: every `beforeNext` is followed at
   once by the same step's `createNextFragment`, and no `createNextFragment`
   is made without it.
   */
  ghost predicate Paired(cs: seq<StepCall>)
    decreases |cs|
  {
    if cs == [] then true
    else match cs[0]
      case BeforeNext(n) => |cs| >= 2 && cs[1] == CreateNext(n) && Paired(cs[2..])
      case CreateNext(_) => false
      case CreatePrev(_) => Paired(cs[1..])
  }

  /** One press keeps the recorded step name and the buttons in agreement with the step on screen. */
  lemma PressKeepsConsistent(a: Screen, steps: StepClasses, p: Press)
    requires WellFormed(a) && Consistent(a) && steps.BeforeNextKeepsStepName()
    ensures Consistent(Pressed(a, steps, p))
    ensures a.finished ==> Pressed(a, steps, p).finished
  {
  }

  /**
   Over any sequence of presses, the step recorded in the state is the step
   on screen, the buttons follow its flags, and a finished wizard stays
   finished.
   */
  lemma {:induction false} SessionKeepsStepRecorded(a: Screen, steps: StepClasses, presses: seq<Press>)
    requires WellFormed(a) && Consistent(a) && steps.BeforeNextKeepsStepName()
    ensures Consistent(Run(a, steps, presses))
    ensures a.finished ==> Run(a, steps, presses).finished
    decreases |presses|
  {
    if presses != [] {
      PressKeepsConsistent(a, steps, presses[0]);
      SessionKeepsStepRecorded(Pressed(a, steps, presses[0]), steps, presses[1..]);
    }
  }

  lemma PairedPrefix(front: seq<StepCall>, rest: seq<StepCall>)
    requires || front == []
             || (|front| == 1 && front[0].CreatePrev?)
             || (|front| == 2 && front[0].BeforeNext? && front[1] == CreateNext(front[0].step))
    requires Paired(rest)
    ensures Paired(front + rest)
  {
    if front == [] {
      assert front + rest == rest;
    } else if |front| == 1 {
      assert (front + rest)[1..] == rest;
    } else {
      assert (front + rest)[2..] == rest;
    }
  }

  /** One press appends nothing, a single `createPrevFragment`, or a `beforeNext` with its `createNextFragment`. */
  lemma PressAppendsPair(a: Screen, steps: StepClasses, p: Press)
    requires WellFormed(a)
    ensures var cs := Pressed(a, steps, p).calls;
      && |cs| >= |a.calls| && cs[..|a.calls|] == a.calls
      && var front := cs[|a.calls|..];
      || front == []
      || (|front| == 1 && front[0].CreatePrev?)
      || (|front| == 2 && front[0].BeforeNext? && front[1] == CreateNext(front[0].step))
  {
  }

  lemma Splice(x: seq<StepCall>, y: seq<StepCall>, z: seq<StepCall>)
    requires |y| >= |x| && y[..|x|] == x
    requires |z| >= |y| && z[..|y|] == y
    ensures z[..|x|] == x
    ensures z[|x|..] == y[|x|..] + z[|y|..]
  {
  }

  /**
   Over any sequence of presses, the calls made into steps only grow, and
   the new ones pair each `beforeNext` with the `createNextFragment` right
   after it.
   */
  lemma {:induction false} SessionPairsHooks(a: Screen, steps: StepClasses, presses: seq<Press>)
    requires WellFormed(a)
    ensures |Run(a, steps, presses).calls| >= |a.calls|
    ensures Run(a, steps, presses).calls[..|a.calls|] == a.calls
    ensures Paired(Run(a, steps, presses).calls[|a.calls|..])
    decreases |presses|
  {
    if presses == [] {
      assert a.calls[|a.calls|..] == [];
      assert a.calls[..|a.calls|] == a.calls;
    } else {
      var b := Pressed(a, steps, presses[0]);
      var r := Run(b, steps, presses[1..]);
      assert Run(a, steps, presses) == r;
      PressAppendsPair(a, steps, presses[0]);
      SessionPairsHooks(b, steps, presses[1..]);
      Splice(a.calls, b.calls, r.calls);
      PairedPrefix(b.calls[|a.calls|..], r.calls[|b.calls|..]);
    }
  }

  /**
   Recreation after process death: a new activity that restores the saved
   bundle and then initialises shows the step that was current (the slot
   selection step if none was), and its state equals the saved one except
   for the confirmation code and the download error.
   */
  lemma RecreatedWizardResumesStep(s: StateValue, out: Bundle, extras: Bundle, steps: StepClasses)
    requires steps.InstantiatesByName()
    ensures var r := Initialised(Restored(Created(Unstarted(), extras), Save(out, s)), steps);
      && r.current.Some?
      && r.current.value.className == s.currentStepFragmentClassName.OrElse(SlotSelectFragment)
      && r.state == Some(s.(currentStepFragmentClassName := Some(r.current.value.className),
                            confirmationCode := None, downloadError := None))
  {
  }

  /** The activity object. */
  class DownloadWizardActivity {
    const steps: StepClasses
    var state: DownloadWizardState?
    var currentFragment: Option<Step>
    var nextButtonVisible: bool
    var prevButtonVisible: bool
    var progressBar: ProgressBar
    var finished: bool
    var stepCalls: seq<StepCall>

    ghost function Model(): Screen
      reads this, state
    {
      Screen(if state == null then None else Some(state.Value()), currentFragment,
             nextButtonVisible, prevButtonVisible, progressBar, finished, stepCalls)
    }

    ghost predicate Valid()
      reads this
    {
      currentFragment.Some? ==> state != null
    }

    constructor (steps: StepClasses)
      ensures this.steps == steps
      ensures Valid() && Model() == Unstarted()
    {
      this.steps := steps;
      state := null;
      currentFragment := None;
      nextButtonVisible, prevButtonVisible := true, true;
      progressBar := ProgressBar(true, true, 0, DefaultProgressMax);
      finished := false;
      stepCalls := [];
    }

    method OnCreate(extras: Bundle)
      modifies this
      ensures fresh(state)
      ensures Valid() && Model() == Created(old(Model()), extras)
    {
      state := new DownloadWizardState(None, GetInt(extras, KeySlot, 0), "", None, None, None, false, -1, None);
    }

    method SetCurrentFragment(v: Option<Step>)
      modifies this, state
      ensures state == old(state)
      ensures Model() == WithCurrent(old(Model()), v)
    {
      if state != null {
        state.currentStepFragmentClassName := NameOf(v);
      }
      currentFragment := v;
    }

    method RefreshButtons()
      modifies this
      ensures state == old(state)
      ensures Model() == ButtonsRefreshed(old(Model()))
    {
      if currentFragment.Some? {
        nextButtonVisible := currentFragment.value.hasNext;
        prevButtonVisible := currentFragment.value.hasPrev;
      }
    }

    method ShowFragment(nextFrag: Step)
      requires state != null
      modifies this, state
      ensures state == old(state)
      ensures Valid() && Model() == Shown(old(Model()), nextFrag)
    {
      SetCurrentFragment(Some(nextFrag));
      RefreshButtons();
    }

    method OnSaveInstanceState(outState: Bundle) returns (saved: Bundle)
      requires state != null
      ensures saved == Save(outState, state.Value())
    {
      saved := outState;
      saved := saved[KeyStepClassName := StringValue(state.currentStepFragmentClassName)];
      saved := saved[KeySlot := IntValue(state.selectedLogicalSlot)];
      saved := saved[KeySmdp := StringValue(Some(state.smdp))];
      saved := saved[KeyMatchingId := StringValue(state.matchingId)];
      saved := saved[KeyConfirmationCode := StringValue(state.confirmationCode)];
      saved := saved[KeyImei := StringValue(state.imei)];
      saved := saved[KeyDownloadStarted := BooleanValue(state.downloadStarted)];
      saved := saved[KeyDownloadTaskID := LongValue(state.downloadTaskID)];
    }

    method OnRestoreInstanceState(savedInstanceState: Bundle)
      requires state != null
      modifies state
      ensures Model() == Restored(old(Model()), savedInstanceState)
    {
      var b := savedInstanceState;
      state.currentStepFragmentClassName := GetString(b, KeyStepClassName, state.currentStepFragmentClassName);
      state.selectedLogicalSlot := GetInt(b, KeySlot, state.selectedLogicalSlot);
      state.smdp := GetString(b, KeySmdp, Some(state.smdp)).value;
      state.matchingId := GetString(b, KeyMatchingId, state.matchingId);
      state.imei := GetString(b, KeyImei, state.imei);
      state.downloadStarted := GetBoolean(b, KeyDownloadStarted, state.downloadStarted);
      state.downloadTaskID := GetLong(b, KeyDownloadTaskID, state.downloadTaskID);
    }

    method OnPrevPressed()
      requires Valid()
      modifies this, state
      ensures state == old(state)
      ensures Valid() && Model() == AfterPrev(old(Model()), steps)
    {
      if currentFragment.Some? && currentFragment.value.hasPrev {
        var c := currentFragment.value;
        stepCalls := stepCalls + [CreatePrev(c.className)];
        var prevFrag := steps.createPrev(c, state.Value());
        if prevFrag.None? {
          finished := true;
        } else {
          ShowFragment(prevFrag.value);
        }
      }
    }

    method OnNextPressed()
      requires Valid()
      modifies this, state
      ensures state == old(state)
      ensures Valid() && Model() == AfterNext(old(Model()), steps)
    {
      if currentFragment.Some? && currentFragment.value.hasNext {
        var c := currentFragment.value;
        stepCalls := stepCalls + [BeforeNext(c.className)];
        state.Assign(steps.beforeNext(c, state.Value()));
        stepCalls := stepCalls + [CreateNext(c.className)];
        var nextFrag := steps.createNext(c, state.Value());
        if nextFrag.None? {
          finished := true;
        } else {
          ShowFragment(nextFrag.value);
        }
      }
    }

    /** The back callback registered in onCreate: back is Prev. */
    method OnBackPressed()
      requires Valid()
      modifies this, state
      ensures state == old(state)
      ensures Valid() && Model() == AfterPrev(old(Model()), steps)
    {
      OnPrevPressed();
    }

    method OnInit()
      requires state != null
      modifies this, state
      ensures state == old(state)
      ensures Valid() && Model() == Initialised(old(Model()), steps)
    {
      progressBar := progressBar.(visible := false);
      if state.currentStepFragmentClassName.Some? {
        ShowFragment(steps.instantiate(state.currentStepFragmentClassName.value));
      } else {
        ShowFragment(steps.instantiate(SlotSelectFragment));
      }
    }

    /** Called by the step on screen; `crashed` is the NullPointerException of `realNext!!`. */
    method GotoNextFragment(next: Option<Step>) returns (crashed: bool)
      requires Valid() && currentFragment.Some?
      modifies this, state
      ensures state == old(state) && Valid()
      ensures crashed <==> WentToNext(old(Model()), steps, next).None?
      ensures !crashed ==> Model() == WentToNext(old(Model()), steps, next).value
      ensures crashed ==> Model() == old(Model()).(calls := old(stepCalls) + [CreateNext(old(currentFragment).value.className)])
    {
      var realNext := next;
      if realNext.None? {
        stepCalls := stepCalls + [CreateNext(currentFragment.value.className)];
        realNext := steps.createNext(currentFragment.value, state.Value());
      }
      crashed := realNext.None?;
      if !crashed {
        ShowFragment(realNext.value);
      }
    }

    method ShowProgressBar(progressValue: int)
      modifies this
      ensures state == old(state)
      ensures Model() == ProgressShown(old(Model()), progressValue)
    {
      progressBar := progressBar.(visible := true);
      if progressValue >= 0 {
        progressBar := progressBar.(indeterminate := false);
        if progressValue > progressBar.max {
          progressBar := progressBar.(progress := progressBar.max);
        } else {
          progressBar := progressBar.(progress := progressValue);
        }
      } else {
        progressBar := progressBar.(indeterminate := true);
      }
    }

    method HideProgressBar()
      modifies this
      ensures state == old(state)
      ensures Model() == ProgressHidden(old(Model()))
    {
      progressBar := progressBar.(visible := false);
    }
  }
}
