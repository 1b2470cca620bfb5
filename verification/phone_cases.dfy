/** Worked phone values: the examples the form's own messages give, and the
    inputs on which the two phone checks part ways. */
module PhoneCases {
  import opened Wrappers
  import opened Text
  import opened Phone

  lemma DigitsOfPlainExample()
    ensures Digits("5551234567") == "5551234567"
  {
    DigitsOfDigits("5551234567");
  }

  lemma CanonicalOfExample()
    ensures Canonical("5551234567") == "(555) 123-4567"
  {
    CanonicalOfGroups("555", "123", "4567");
    assert "555" + "123" + "4567" == "5551234567";
    assert "(" + "555" + ") " + "123" + "-" + "4567" == "(555) 123-4567";
  }

  /** The worked example of normalisation: `5551234567` becomes `(555) 123-4567`. */
  lemma NormaliseExample()
    ensures Normalise("5551234567") == Success("(555) 123-4567")
  {
    DigitsOfPlainExample();
    CanonicalOfExample();
  }

  /** Five digits are refused, and the refusal reports the count. */
  lemma NormaliseRefusesFiveDigits()
    ensures Normalise("12345") == Failure(WrongDigitCount(5))
  {
    DigitsOfDigits("12345");
  }

  /** The worked examples of the pattern: `555-555-5555` passes, `12345` fails. */
  lemma PatternExamples()
    ensures MatchesPattern("555-555-5555")
    ensures !MatchesPattern("12345")
  {
    var p := Shape(false, "555", false, Some('-'), "555", Some('-'), "5555");
    assert Render(p) == "555-555-5555";
    ParseRender(p);
    if MatchesPattern("12345") {
      PatternHasTenDigits("12345");
      DigitsOfDigits("12345");
      assert false;
    }
  }

  const Slash: char := '/'

  /** Ten digits grouped by `/` strip to the ten digits. */
  lemma DigitsOfSlashed(a: string, b: string, c: string)
    requires AllDigits(a) && AllDigits(b) && AllDigits(c)
    ensures Digits(a + ([Slash] + (b + ([Slash] + c)))) == a + b + c
  {
    var tail := [Slash] + c;
    var mid := [Slash] + (b + tail);
    assert Digits(tail) == c by {
      DigitsCons(Slash, c);
      DigitsOfDigits(c);
    }
    assert Digits(b + tail) == b + c by {
      DigitsAfterGroup(b, tail);
    }
    assert Digits(mid) == b + c by {
      DigitsCons(Slash, b + tail);
    }
    assert Digits(a + mid) == a + (b + c) by {
      DigitsAfterGroup(a, mid);
    }
    assert a + (b + c) == a + b + c;
  }

  /** `/` is not a separator of the pattern, so digits grouped by it fail. */
  lemma SlashedFailsPattern(a: string, rest: string)
    requires |a| == 3 && AllDigits(a)
    requires rest != [] && rest[0] == '/'
    ensures !MatchesPattern(a + rest)
  {
    var v := a + rest;
    DigitIsPlain(a[0]);
    assert v[0] == a[0];
    assert TakeMark(v, '(') == (false, v);
    TakeDigitsOf(a, rest);
    assert TakeMark(rest, ')') == (false, rest);
    assert TakeSep(rest) == (None, rest);
    assert TakeDigits(rest, 3).None? by {
      assert |rest| < 3 || rest[..3][0] == '/';
    }
  }

  /** The two checks differ: ten digits grouped by `/`, which is not a
      separator of the pattern, pass the submit-time check and fail the
      pattern. */
  lemma NormalisesWithoutPattern(a: string, b: string, c: string)
    requires |a| == 3 && |b| == 3 && |c| == 4
    requires AllDigits(a) && AllDigits(b) && AllDigits(c)
    ensures Normalise(a + "/" + b + "/" + c) == Success(Canonical(a + b + c))
    ensures !MatchesPattern(a + "/" + b + "/" + c)
  {
    assert a + "/" + b + "/" + c == a + ([Slash] + (b + ([Slash] + c)));
    DigitsOfSlashed(a, b, c);
    SlashedFailsPattern(a, [Slash] + (b + ([Slash] + c)));
  }

  /** The pattern does not pair its parentheses: an opening one alone passes. */
  lemma UnpairedParenthesis()
    ensures MatchesPattern("(555123-4567")
  {
    var p := Shape(true, "555", false, None, "123", Some('-'), "4567");
    assert Render(p) == "(555123-4567";
    ParseRender(p);
  }
}
