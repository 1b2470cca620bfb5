/**
 The two phone checks of the lead form.

 The step-advance check is the pattern `^\(?\d{3}\)?[-\.\s]?\d{3}[-\.\s]?\d{4}$`,
 modelled as a recogniser (`Parse`) that recovers the parts of a matching
 string and a renderer (`Render`) that rebuilds the string from its parts; the
 language of the pattern is exactly the set of rendered well-formed shapes.

 The submit-time check strips every non-digit, demands exactly ten digits and
 rewrites the value as `(DDD) DDD-DDDD`.
 */
module Phone {
  import opened Wrappers
  import opened Text

  /** The class `[-\.\s]`. */
  predicate IsSeparator(c: char) {
    c == '-' || c == '.' || IsSpace(c)
  }

  /** The parts of a string the loose pattern matches: optional `(`, three
      digits, optional `)`, optional separator, three digits, optional
      separator, four digits. */
  datatype Shape = Shape(open: bool, area: string, close: bool, sep1: Option<char>,
                         exchange: string, sep2: Option<char>, line: string)

  predicate WellFormed(p: Shape) {
    && |p.area| == 3 && AllDigits(p.area)
    && |p.exchange| == 3 && AllDigits(p.exchange)
    && |p.line| == 4 && AllDigits(p.line)
    && (p.sep1.Some? ==> IsSeparator(p.sep1.value))
    && (p.sep2.Some? ==> IsSeparator(p.sep2.value))
  }

  function Mark(present: bool, c: char): string {
    if present then [c] else []
  }

  function Sep(o: Option<char>): string {
    if o.Some? then [o.value] else []
  }

  function Render(p: Shape): string {
    Mark(p.open, '(') + (p.area + (Mark(p.close, ')') + (Sep(p.sep1) + (p.exchange + (Sep(p.sep2) + p.line)))))
  }

  /** Reads an optional separator off the front of `s`. */
  function TakeSep(s: string): (r: (Option<char>, string))
    ensures Sep(r.0) + r.1 == s
    ensures r.0.Some? ==> IsSeparator(r.0.value)
  {
    if s != [] && IsSeparator(s[0]) then (Some(s[0]), s[1..]) else (None, s)
  }

  /** Reads an optional `c` off the front of `s`. */
  function TakeMark(s: string, c: char): (r: (bool, string))
    ensures Mark(r.0, c) + r.1 == s
  {
    if s != [] && s[0] == c then (true, s[1..]) else (false, s)
  }

  /** Reads a group of `n` digits off the front of `s`. */
  function TakeDigits(s: string, n: nat): (r: Option<(string, string)>)
    ensures r.Some? ==> |r.value.0| == n && AllDigits(r.value.0) && r.value.0 + r.value.1 == s
  {
    if |s| < n || !AllDigits(s[..n]) then None
    else
      assert s == s[..n] + s[n..];
      Some((s[..n], s[n..]))
  }

  /** The recogniser for the loose pattern. Each optional element is taken
      greedily; `(`, `)`, separators and digits are disjoint classes, so greedy
      matching never has to backtrack. */
  function Parse(s: string): (r: Option<Shape>)
    ensures r.Some? ==> WellFormed(r.value) && Render(r.value) == s
  {
    var (open, s1) := TakeMark(s, '(');
    match TakeDigits(s1, 3)
    case None => None
    case Some((area, s2)) =>
      var (close, s3) := TakeMark(s2, ')');
      var (sep1, s4) := TakeSep(s3);
      match TakeDigits(s4, 3)
      case None => None
      case Some((exchange, s5)) =>
        var (sep2, line) := TakeSep(s5);
        if |line| != 4 || !AllDigits(line) then None
        else Some(Shape(open, area, close, sep1, exchange, sep2, line))
  }

  /** `phoneRegex.test(s)`. The pattern is anchored at both ends, so a match
      is between 10 and 14 characters long and ends with a digit. */
  predicate MatchesPattern(s: string): (r: bool)
    ensures r ==> 10 <= |s| <= 14
    ensures r ==> IsDigit(s[|s| - 1])
  {
    Parse(s).Some?
  }

  lemma TakeMarkOf(b: bool, c: char, rest: string)
    requires rest == [] || rest[0] != c
    ensures TakeMark(Mark(b, c) + rest, c) == (b, rest)
  {
    if b {
      assert (Mark(b, c) + rest)[1..] == rest;
    } else {
      assert Mark(b, c) + rest == rest;
    }
  }

  lemma TakeSepOf(o: Option<char>, rest: string)
    requires o.Some? ==> IsSeparator(o.value)
    requires rest == [] || !IsSeparator(rest[0])
    ensures TakeSep(Sep(o) + rest) == (o, rest)
  {
    if o.Some? {
      assert (Sep(o) + rest)[1..] == rest;
    } else {
      assert Sep(o) + rest == rest;
    }
  }

  lemma TakeDigitsOf(d: string, rest: string)
    requires AllDigits(d)
    ensures TakeDigits(d + rest, |d|) == Some((d, rest))
  {
    assert (d + rest)[..|d|] == d;
    assert (d + rest)[|d|..] == rest;
  }

  /** Digits are neither separators nor parentheses. */
  lemma DigitIsPlain(c: char)
    requires IsDigit(c)
    ensures !IsSeparator(c) && c != '(' && c != ')'
  {
  }

  /** The recogniser accepts every rendered well-formed shape and recovers it. */
  lemma ParseRender(p: Shape)
    requires WellFormed(p)
    ensures Parse(Render(p)) == Some(p)
  {
    var s5 := Sep(p.sep2) + p.line;
    var s4 := p.exchange + s5;
    var s3 := Sep(p.sep1) + s4;
    var s2 := Mark(p.close, ')') + s3;
    var s1 := p.area + s2;
    DigitIsPlain(p.area[0]);
    DigitIsPlain(p.exchange[0]);
    DigitIsPlain(p.line[0]);
    assert s1[0] == p.area[0];
    assert s4[0] == p.exchange[0];
    TakeMarkOf(p.open, '(', s1);
    TakeDigitsOf(p.area, s2);
    assert s3 == [] || s3[0] != ')' by {
      if p.sep1.None? { assert s3 == s4; }
    }
    TakeMarkOf(p.close, ')', s3);
    TakeSepOf(p.sep1, s4);
    TakeDigitsOf(p.exchange, s5);
    TakeSepOf(p.sep2, p.line);
  }

  /** The language of the loose pattern is exactly the set of renderings of
      well-formed shapes. */
  lemma PatternLanguage(s: string)
    ensures MatchesPattern(s) <==> exists p :: WellFormed(p) && Render(p) == s
  {
    if exists p :: WellFormed(p) && Render(p) == s {
      var p :| WellFormed(p) && Render(p) == s;
      ParseRender(p);
    }
  }

  /** An optional non-digit in front adds no digits. */
  lemma DigitsAfterMark(b: bool, c: char, rest: string)
    requires !IsDigit(c)
    ensures Digits(Mark(b, c) + rest) == Digits(rest)
  {
    if b {
      DigitsCons(c, rest);
    } else {
      assert Mark(b, c) + rest == rest;
    }
  }

  /** An optional separator in front adds no digits. */
  lemma DigitsAfterSep(o: Option<char>, rest: string)
    requires o.Some? ==> IsSeparator(o.value)
    ensures Digits(Sep(o) + rest) == Digits(rest)
  {
    if o.Some? {
      DigitsCons(o.value, rest);
    } else {
      assert Sep(o) + rest == rest;
    }
  }

  /** A digit group in front is kept whole. */
  lemma DigitsAfterGroup(d: string, rest: string)
    requires AllDigits(d)
    ensures Digits(d + rest) == d + Digits(rest)
  {
    DigitsConcat(d, rest);
    DigitsOfDigits(d);
  }

  /** The digits of a rendered shape are its three digit groups, in order. */
  lemma DigitsOfRender(p: Shape)
    requires WellFormed(p)
    ensures Digits(Render(p)) == p.area + p.exchange + p.line
  {
    var s5 := Sep(p.sep2) + p.line;
    var s4 := p.exchange + s5;
    var s3 := Sep(p.sep1) + s4;
    var s2 := Mark(p.close, ')') + s3;
    var s1 := p.area + s2;
    DigitsAfterSep(p.sep2, p.line);
    DigitsOfDigits(p.line);
    DigitsAfterGroup(p.exchange, s5);
    DigitsAfterSep(p.sep1, s4);
    DigitsAfterMark(p.close, ')', s3);
    DigitsAfterGroup(p.area, s2);
    DigitsAfterMark(p.open, '(', s1);
    assert p.area + (p.exchange + p.line) == p.area + p.exchange + p.line;
  }

  /** Every string the loose pattern accepts holds exactly ten digits. */
  lemma PatternHasTenDigits(s: string)
    requires MatchesPattern(s)
    ensures |Digits(s)| == 10
  {
    DigitsOfRender(Parse(s).value);
  }

  /** The canonical rewrite of ten digits. */
  function Canonical(d: string): (r: string)
    requires |d| == 10
    ensures |r| == 14
    ensures r[0] == '(' && r[4..6] == ") " && r[9] == '-'
    ensures r[1..4] == d[..3] && r[6..9] == d[3..6] && r[10..] == d[6..]
  {
    "(" + d[..3] + ") " + d[3..6] + "-" + d[6..]
  }

  /** The canonical rewrite of three digit groups. */
  lemma CanonicalOfGroups(a: string, b: string, c: string)
    requires |a| == 3 && |b| == 3 && |c| == 4
    ensures Canonical(a + b + c) == "(" + a + ") " + b + "-" + c
  {
    var d := a + b + c;
    assert d[..3] == a;
    assert d[3..6] == b;
    assert d[6..] == c;
  }

  /** The canonical form is the rendering of a shape with both parentheses, a
      space and a dash. */
  lemma CanonicalIsRender(d: string)
    requires |d| == 10
    ensures Canonical(d) == Render(Shape(true, d[..3], true, Some(' '), d[3..6], Some('-'), d[6..]))
  {
  }

  datatype PhoneError = WrongDigitCount(digits: nat)

  /** The submit-time phone check: exactly ten digits, rewritten canonically. */
  function Normalise(v: string): (r: Result<string, PhoneError>)
    ensures r.Success? <==> |Digits(v)| == 10
    ensures r.Failure? ==> r.error.digits == |Digits(v)|
    ensures r.Success? ==> |r.value| == 14 && Digits(r.value) == Digits(v)
    ensures r.Success? ==> r.value[0] == '(' && r.value[4..6] == ") " && r.value[9] == '-'
  {
    var d := Digits(v);
    if |d| != 10 then Failure(WrongDigitCount(|d|))
    else
      var c := Canonical(d);
      assert Digits(c) == d by {
        CanonicalIsRender(d);
        DigitsOfRender(Shape(true, d[..3], true, Some(' '), d[3..6], Some('-'), d[6..]));
        assert d == d[..3] + d[3..6] + d[6..];
      }
      Success(c)
  }

  /** A normalised value is a fixed point of normalisation. */
  lemma NormaliseIdempotent(v: string)
    requires Normalise(v).Success?
    ensures Normalise(Normalise(v).value) == Normalise(v)
  {
    var d := Digits(v);
    assert d == Digits(Normalise(v).value);
  }

  /** A normalised value passes the loose pattern, too. */
  lemma NormalisedMatchesPattern(v: string)
    requires Normalise(v).Success?
    ensures MatchesPattern(Normalise(v).value)
  {
    var d := Digits(v);
    var p := Shape(true, d[..3], true, Some(' '), d[3..6], Some('-'), d[6..]);
    CanonicalIsRender(d);
    ParseRender(p);
  }

  /** The pattern is stricter than the ten-digit check: a value whose trimmed
      form the pattern accepts always normalises. */
  lemma PatternImpliesNormalises(v: string)
    requires MatchesPattern(Trim(v))
    ensures Normalise(v).Success?
  {
    PatternHasTenDigits(Trim(v));
    DigitsOfTrim(v);
  }

  /** A normalised value has no surrounding white space, so trimming it again
      changes nothing. */
  lemma NormalisedIsTrimmed(v: string)
    requires Normalise(v).Success?
    ensures Trim(Normalise(v).value) == Normalise(v).value
  {
    var c := Normalise(v).value;
    var d := Digits(v);
    assert c[13] == d[9];
    assert TrimStart(c) == c;
    assert TrimEnd(c) == c;
  }
}
