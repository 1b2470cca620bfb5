/**
 The step wizard of one `.lead-form`: which `.form-step` is shown, the
 `current` index, and the visibility of the submit control, driven by the
 next and previous controls and the Enter key.
 */
module Navigator {
  import opened Wrappers
  import opened Text
  import opened Fields
  import opened Phone

  /** A `.form-step`: its controls in document order and whether it is shown. */
  datatype Step = Step(fields: seq<Field>, active: bool)

  /** The wizard state. `submitShown` is `None` when the form has no submit
      control, else whether that control is displayed. */
  datatype Wizard = Wizard(steps: seq<Step>, current: int, submitShown: Option<bool>)

  /** The state every reachable wizard is in: at least one step, `current`
      indexes a step, exactly the current step is shown, and the submit control
      is shown exactly on the last step. */
  predicate Inv(w: Wizard) {
    && 1 <= |w.steps|
    && 0 <= w.current < |w.steps|
    && (forall i :: 0 <= i < |w.steps| ==> (w.steps[i].active <==> i == w.current))
    && (w.submitShown.Some? ==> (w.submitShown.value <==> w.current == |w.steps| - 1))
  }

  /** `showStep(index)`: shows step `index` alone, records it as current, and
      shows the submit control only on the last step. Controls are untouched. */
  function ShowStep(w: Wizard, index: int): (r: Wizard)
    ensures |r.steps| == |w.steps| && r.current == index
    ensures forall i :: 0 <= i < |r.steps| ==> r.steps[i].fields == w.steps[i].fields
    ensures forall i :: 0 <= i < |r.steps| ==> (r.steps[i].active <==> i == index)
    ensures r.submitShown.Some? <==> w.submitShown.Some?
    ensures r.submitShown.Some? ==> (r.submitShown.value <==> index == |w.steps| - 1)
    ensures 0 <= index < |w.steps| ==> Inv(r)
  {
    Wizard(seq(|w.steps|, i requires 0 <= i < |w.steps| => w.steps[i].(active := i == index)),
           index,
           if w.submitShown.Some? then Some(index == |w.steps| - 1) else None)
  }

  /** The number of steps shown. */
  function ActiveCount(steps: seq<Step>): nat {
    if steps == [] then 0
    else ActiveCount(steps[..|steps| - 1]) + (if steps[|steps| - 1].active then 1 else 0)
  }

  lemma {:induction false} NoneActive(steps: seq<Step>)
    requires forall i :: 0 <= i < |steps| ==> !steps[i].active
    ensures ActiveCount(steps) == 0
  {
    if steps != [] {
      NoneActive(steps[..|steps| - 1]);
    }
  }

  lemma {:induction false} OneActive(steps: seq<Step>, k: int)
    requires 0 <= k < |steps|
    requires forall i :: 0 <= i < |steps| ==> (steps[i].active <==> i == k)
    ensures ActiveCount(steps) == 1
  {
    var init := steps[..|steps| - 1];
    if k == |steps| - 1 {
      NoneActive(init);
    } else {
      OneActive(init, k);
    }
  }

  /** In every reachable state exactly one step is shown. */
  lemma ExactlyOneShown(w: Wizard)
    requires Inv(w)
    ensures ActiveCount(w.steps) == 1
  {
    OneActive(w.steps, w.current);
  }

  /** `showStep(i)` with an index in range leaves exactly step `i` shown. */
  lemma ShowStepShowsOne(w: Wizard, index: int)
    requires 0 <= index < |w.steps|
    ensures Inv(ShowStep(w, index)) && ShowStep(w, index).current == index
    ensures ActiveCount(ShowStep(w, index).steps) == 1
  {
    ExactlyOneShown(ShowStep(w, index));
  }

  /** Showing the step already shown changes nothing. */
  lemma ShowCurrentIsIdentity(w: Wizard)
    requires Inv(w)
    ensures ShowStep(w, w.current) == w
  {
    var r := ShowStep(w, w.current);
    assert r.steps == w.steps;
  }

  /** Only the last `showStep` call matters. */
  lemma ShowStepTwice(w: Wizard, a: int, b: int)
    ensures ShowStep(ShowStep(w, a), b) == ShowStep(w, b)
  {
    assert ShowStep(ShowStep(w, a), b).steps == ShowStep(w, b).steps;
  }

  /** The initial state of a form: `current = 0`, then `showStep(0)`. */
  function Init(steps: seq<Step>, hasSubmit: bool): (r: Wizard)
    ensures 1 <= |steps| ==> Inv(r) && r.current == 0
    ensures (r.submitShown.Some? <==> hasSubmit)
    ensures |r.steps| == |steps|
    ensures forall i :: 0 <= i < |steps| ==> r.steps[i].fields == steps[i].fields
  {
    ShowStep(Wizard(steps, 0, if hasSubmit then Some(true) else None), 0)
  }

  /** The step-advance phone check blocks: the step's first telephone control
      holds a non-blank value the loose pattern rejects. A step without a
      telephone control, or with a blank one, is never blocked; a non-blank
      value that gets through holds exactly ten digits. */
  predicate PhoneBlocks(fields: seq<Field>): (r: bool)
    ensures TelField(fields).None? ==> !r
    ensures TelField(fields).Some? && AllSpace(fields[TelField(fields).value].value) ==> !r
    ensures TelField(fields).Some? && !AllSpace(fields[TelField(fields).value].value) && !r ==>
              |Digits(fields[TelField(fields).value].value)| == 10
    ensures r ==> !MatchesPattern(Trim(fields[TelField(fields).value].value))
    ensures (TelField(fields).Some? && !AllSpace(fields[TelField(fields).value].value) &&
             !MatchesPattern(Trim(fields[TelField(fields).value].value))) ==> r
  {
    match TelField(fields)
    case None => false
    case Some(t) =>
      var v := fields[t].value;
      TrimEmptyIff(v);
      if Trim(v) != [] && MatchesPattern(Trim(v)) then
        PatternImpliesNormalises(v);
        false
      else Trim(v) != []
  }

  /** What a press of the next control did. */
  datatype Effect =
    | Advanced                 // moved to the following step
    | AtLastStep               // checks passed, but there is no following step
    | FocusRequired(field: nat) // a required control was blank; it took the focus
    | PhoneWarning(field: nat)  // the phone warning was shown; the control took the focus

  datatype Move = Move(wizard: Wizard, effect: Effect)

  /** The `.btn-next` click handler. */
  function Next(w: Wizard): (r: Move)
    requires 0 <= w.current < |w.steps|
    ensures r.effect.Advanced? ==> r.wizard == ShowStep(w, w.current + 1)
    ensures !r.effect.Advanced? ==> r.wizard == w
    ensures r.effect.Advanced? <==>
              && ValidateRequiredFields(w.steps[w.current].fields).Valid?
              && !PhoneBlocks(w.steps[w.current].fields)
              && w.current < |w.steps| - 1
    ensures r.effect.FocusRequired? <==> ValidateRequiredFields(w.steps[w.current].fields).Invalid?
    ensures r.effect.FocusRequired? ==> r.effect == FocusRequired(ValidateRequiredFields(w.steps[w.current].fields).focus)
    ensures r.effect.PhoneWarning? <==>
              ValidateRequiredFields(w.steps[w.current].fields).Valid? && PhoneBlocks(w.steps[w.current].fields)
    ensures r.effect.PhoneWarning? ==> TelField(w.steps[w.current].fields) == Some(r.effect.field)
  {
    var fields := w.steps[w.current].fields;
    match ValidateRequiredFields(fields)
    case Invalid(i) => Move(w, FocusRequired(i))
    case Valid =>
      if PhoneBlocks(fields) then Move(w, PhoneWarning(TelField(fields).value))
      else if w.current < |w.steps| - 1 then Move(ShowStep(w, w.current + 1), Advanced)
      else Move(w, AtLastStep)
  }

  /** The `.btn-prev` click handler. */
  function Prev(w: Wizard): (r: Wizard)
    ensures w.current > 0 ==> r == ShowStep(w, w.current - 1)
    ensures w.current <= 0 ==> r == w
  {
    if w.current > 0 then ShowStep(w, w.current - 1) else w
  }

  /** Going back undoes a step forward. */
  lemma PrevUndoesNext(w: Wizard)
    requires Inv(w)
    requires Next(w).effect.Advanced?
    ensures Prev(Next(w).wizard) == w
  {
    ShowStepTwice(w, w.current + 1, w.current);
    ShowCurrentIsIdentity(w);
  }

  /** What a keydown inside step `idx` did: whether the browser's default
      action was suppressed, and the next-control click it stood for, if any. */
  datatype KeyResult = KeyResult(wizard: Wizard, prevented: bool, effect: Option<Effect>)

  /** The keydown handler of step `idx`: Enter on any step but the last is
      suppressed and clicks the form's first next control, if it has one;
      Enter on the last step is left to the browser (native submission); other
      keys are ignored. */
  function KeyDown(w: Wizard, idx: int, key: string, hasNext: bool): (r: KeyResult)
    requires 0 <= w.current < |w.steps|
    ensures r.prevented <==> key == "Enter" && idx != |w.steps| - 1
    ensures r.prevented && hasNext ==> r.wizard == Next(w).wizard && r.effect == Some(Next(w).effect)
    ensures !(r.prevented && hasNext) ==> r.wizard == w && r.effect == None
  {
    if key != "Enter" || idx == |w.steps| - 1 then KeyResult(w, false, None)
    else if !hasNext then KeyResult(w, true, None)
    else
      var m := Next(w);
      KeyResult(m.wizard, true, Some(m.effect))
  }

  /** The user's interactions with a form: clicks on the next and previous
      controls, key presses inside a step, and typing into a control. */
  datatype Event =
    | ClickNext
    | ClickPrev
    | KeyIn(step: int, key: string)
    | TypeInto(step: int, field: int, value: string)

  /** Typing replaces one control's value and changes nothing else. */
  function Edit(w: Wizard, s: int, f: int, v: string): (r: Wizard)
    ensures r.current == w.current && r.submitShown == w.submitShown && |r.steps| == |w.steps|
    ensures forall i :: 0 <= i < |w.steps| ==> r.steps[i].active == w.steps[i].active
  {
    if 0 <= s < |w.steps| && 0 <= f < |w.steps[s].fields| then
      var step := w.steps[s];
      w.(steps := w.steps[s := step.(fields := step.fields[f := step.fields[f].(value := v)])])
    else w
  }

  /** One event. A key press in a step that does not exist has no handler. */
  function Apply(w: Wizard, e: Event, hasNext: bool): (r: Wizard)
    requires Inv(w)
    ensures Inv(r) && |r.steps| == |w.steps|
    ensures r.current == w.current || r.current == w.current + 1 || r.current == w.current - 1
    ensures r.current == w.current + 1 ==> e.ClickNext? || (e.KeyIn? && e.key == "Enter")
    ensures r.current == w.current - 1 ==> e.ClickPrev?
  {
    match e
    case ClickNext => Next(w).wizard
    case ClickPrev => Prev(w)
    case KeyIn(s, k) => if 0 <= s < |w.steps| then KeyDown(w, s, k, hasNext).wizard else w
    case TypeInto(s, f, v) => Edit(w, s, f, v)
  }

  /** A run of events from a reachable state. */
  function Run(w: Wizard, events: seq<Event>, hasNext: bool): (r: Wizard)
    requires Inv(w)
    ensures Inv(r) && |r.steps| == |w.steps|
    decreases |events|
  {
    if events == [] then w else Run(Apply(w, events[0], hasNext), events[1..], hasNext)
  }

  /** From the initial state, any run of events keeps exactly one step shown
      and `current` within the steps. */
  lemma RunFromInit(steps: seq<Step>, hasSubmit: bool, events: seq<Event>, hasNext: bool)
    requires 1 <= |steps|
    ensures Inv(Run(Init(steps, hasSubmit), events, hasNext))
    ensures ActiveCount(Run(Init(steps, hasSubmit), events, hasNext).steps) == 1
  {
    ExactlyOneShown(Run(Init(steps, hasSubmit), events, hasNext));
  }
}
