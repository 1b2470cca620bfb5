/** Worked scenarios of the wizard and of the greeting. */
module FormCases {
  import opened Wrappers
  import opened Text
  import opened Fields
  import opened Phone
  import opened PhoneCases
  import opened Navigator
  import opened Submission

  /** A step holding one optional telephone control with value `v`. */
  function PhoneStep(v: string): seq<Field> {
    [Field("phone", v, false, true)]
  }

  lemma TrimOfShort()
    ensures Trim("12345") == "12345"
  {
    assert TrimStart("12345") == "12345";
    assert TrimEnd("12345") == "12345";
  }

  lemma TrimOfDashed()
    ensures Trim("555-555-5555") == "555-555-5555"
  {
    assert TrimStart("555-555-5555") == "555-555-5555";
    assert TrimEnd("555-555-5555") == "555-555-5555";
  }

  lemma ShortPhoneBlocks()
    ensures ValidateRequiredFields(PhoneStep("12345")) == Valid
    ensures PhoneBlocks(PhoneStep("12345"))
  {
    TrimOfShort();
    PatternExamples();
  }

  lemma DashedPhonePasses()
    ensures ValidateRequiredFields(PhoneStep("555-555-5555")) == Valid
    ensures !PhoneBlocks(PhoneStep("555-555-5555"))
  {
    TrimOfDashed();
    PatternExamples();
  }

  /** `12345` in the telephone control blocks the step: the warning is shown,
      the control takes the focus, and the wizard stays where it is. */
  lemma ShortPhoneBlocksAdvance(w: Wizard)
    requires 0 <= w.current < |w.steps|
    requires w.steps[w.current].fields == PhoneStep("12345")
    ensures Next(w) == Move(w, PhoneWarning(0))
  {
    ShortPhoneBlocks();
  }

  /** `555-555-5555` in the telephone control lets the wizard advance from any
      step but the last, and shows the submit control on arriving at the last. */
  lemma DashedPhoneAdvances(w: Wizard)
    requires Inv(w) && w.current < |w.steps| - 1
    requires w.steps[w.current].fields == PhoneStep("555-555-5555")
    ensures Next(w).effect == Advanced
    ensures Inv(Next(w).wizard) && Next(w).wizard.current == w.current + 1
    ensures w.submitShown.Some? && w.current + 1 == |w.steps| - 1 ==> Next(w).wizard.submitShown == Some(true)
  {
    DashedPhonePasses();
  }

  /** Enter on the last step is left to the browser, whatever the state. */
  lemma EnterOnLastStepNotSuppressed(w: Wizard, hasNext: bool)
    requires Inv(w)
    ensures !KeyDown(w, |w.steps| - 1, "Enter", hasNext).prevented
    ensures KeyDown(w, |w.steps| - 1, "Enter", hasNext).wizard == w
  {
  }

  /** The two phone checks also disagree on a blank telephone value: the
      step-advance check lets it through, the submit-time check refuses it. */
  lemma BlankPhonePassesStepOnly(v: string)
    requires AllSpace(v)
    ensures !PhoneBlocks(PhoneStep(v))
    ensures !PhoneAccepted(PhoneStep(v))
  {
    SpaceHasNoDigits(v);
  }

  /** The greeting takes the first word of the name, and falls back to
      `Friend` for an empty name. */
  lemma GreetingExamples()
    ensures GreetingName("Ana Lopez") == "Ana"
    ensures GreetingName("Ana") == "Ana"
    ensures GreetingName("") == "Friend"
  {
    assert FirstToken("Ana Lopez") == "Ana" by {
      assert "Ana Lopez"[3] == ' ';
    }
  }
}
