/**
 The string primitives the lead-form script leans on: JavaScript's `trim()`,
 the regular-expression classes `\s` and `\d`, `replace(/\D/g, '')` and
 `split(' ')[0]`, stated over `string` (a sequence of `char`).
 */
module Text {

  /** The characters ECMAScript counts as WhiteSpace or LineTerminator: the set
      `String.prototype.trim` strips and the regular-expression class `\s` matches. */
  predicate IsSpace(c: char) {
    || c == '\t' || c == '\n' || c == '\U{000B}' || c == '\U{000C}' || c == '\r' || c == ' '
    || c == '\U{00A0}' || c == '\U{1680}' || ('\U{2000}' <= c <= '\U{200A}')
    || c == '\U{2028}' || c == '\U{2029}' || c == '\U{202F}' || c == '\U{205F}'
    || c == '\U{3000}' || c == '\U{FEFF}'
  }

  /** The regular-expression class `\d` (without the `u` flag: ASCII digits only). */
  predicate IsDigit(c: char) {
    '0' <= c <= '9'
  }

  predicate AllSpace(s: string) {
    forall i :: 0 <= i < |s| ==> IsSpace(s[i])
  }

  predicate AllDigits(s: string) {
    forall i :: 0 <= i < |s| ==> IsDigit(s[i])
  }

  predicate NoDigits(s: string) {
    forall i :: 0 <= i < |s| ==> !IsDigit(s[i])
  }

  /** Drops leading white space: what is dropped is all white space, and what is
      kept is a suffix that does not start with white space. */
  function TrimStart(s: string): (r: string)
    ensures |r| <= |s| && r == s[|s| - |r|..]
    ensures AllSpace(s[..|s| - |r|])
    ensures r == [] || !IsSpace(r[0])
  {
    if s != [] && IsSpace(s[0]) then TrimStart(s[1..]) else s
  }

  /** Drops trailing white space: what is dropped is all white space, and what is
      kept is a prefix that does not end with white space. */
  function TrimEnd(s: string): (r: string)
    ensures |r| <= |s| && r == s[..|r|]
    ensures AllSpace(s[|r|..])
    ensures r == [] || !IsSpace(r[|r| - 1])
  {
    if s != [] && IsSpace(s[|s| - 1]) then TrimEnd(s[..|s| - 1]) else s
  }

  /** JavaScript's `String.prototype.trim`. */
  function Trim(s: string): (r: string)
    ensures |r| <= |s|
    ensures r == [] || (!IsSpace(r[0]) && !IsSpace(r[|r| - 1]))
  {
    TrimEnd(TrimStart(s))
  }

  /** A string trims to nothing exactly when it is all white space. */
  lemma TrimEmptyIff(s: string)
    ensures Trim(s) == [] <==> AllSpace(s)
  {
    var t := TrimStart(s);
    if Trim(s) == [] {
      assert s == s[..|s| - |t|] + t;
      assert AllSpace(t) by { assert t[|Trim(s)|..] == t; }
    }
  }

  /** The trimmed text is the unique core between white-space margins: any
      decomposition `pre + mid + post` with white-space margins and a core that
      neither starts nor ends with white space is the one `Trim` finds. */
  lemma {:induction false} TrimUnique(pre: string, mid: string, post: string)
    requires AllSpace(pre) && AllSpace(post)
    requires mid == [] || (!IsSpace(mid[0]) && !IsSpace(mid[|mid| - 1]))
    ensures Trim(pre + mid + post) == mid
  {
    var s := pre + mid + post;
    if mid == [] {
      TrimEmptyIff(s);
      assert AllSpace(s) by {
        forall i | 0 <= i < |s| ensures IsSpace(s[i]) {
          if i < |pre| { assert s[i] == pre[i]; } else { assert s[i] == post[i - |pre|]; }
        }
      }
    } else {
      TrimStartOf(pre, mid + post);
      assert pre + mid + post == pre + (mid + post);
      TrimEndOf(mid, post);
    }
  }

  lemma {:induction false} TrimStartOf(pre: string, rest: string)
    requires AllSpace(pre)
    requires rest != [] && !IsSpace(rest[0])
    ensures TrimStart(pre + rest) == rest
  {
    var t := TrimStart(pre + rest);
    assert t == (pre + rest)[|pre|..] == rest;
  }

  lemma {:induction false} TrimEndOf(mid: string, post: string)
    requires AllSpace(post)
    requires mid != [] && !IsSpace(mid[|mid| - 1])
    ensures TrimEnd(mid + post) == mid
  {
    var s := mid + post;
    var t := TrimEnd(s);
    assert t == s[..|mid|] == mid;
  }

  /** Trimming twice is trimming once. */
  lemma TrimIdempotent(s: string)
    ensures Trim(Trim(s)) == Trim(s)
  {
    var r := Trim(s);
    assert TrimStart(r) == r;
    assert TrimEnd(r) == r;
  }

  /** `replace(/\D/g, '')`: the digits of `s`, in order. */
  function Digits(s: string): (r: string)
    ensures AllDigits(r)
    ensures |r| <= |s|
  {
    if s == [] then []
    else (if IsDigit(s[0]) then [s[0]] else []) + Digits(s[1..])
  }

  /** Stripping non-digits from a string with a known first character. */
  lemma DigitsCons(c: char, s: string)
    ensures Digits([c] + s) == (if IsDigit(c) then [c] else []) + Digits(s)
  {
    assert ([c] + s)[0] == c;
    assert ([c] + s)[1..] == s;
  }

  lemma {:induction false} DigitsConcat(a: string, b: string)
    ensures Digits(a + b) == Digits(a) + Digits(b)
  {
    if a == [] {
      assert a + b == b;
    } else {
      assert a + b == [a[0]] + (a[1..] + b);
      assert a == [a[0]] + a[1..];
      DigitsCons(a[0], a[1..] + b);
      DigitsCons(a[0], a[1..]);
      DigitsConcat(a[1..], b);
    }
  }

  /** Stripping non-digits leaves an all-digit string as it is, and removes
      everything from a string without digits. */
  lemma {:induction false} DigitsOfDigits(s: string)
    ensures AllDigits(s) ==> Digits(s) == s
    ensures NoDigits(s) ==> Digits(s) == []
  {
    if s != [] {
      DigitsOfDigits(s[1..]);
    }
  }

  /** White space carries no digits, so trimming never changes the digit string. */
  lemma DigitsOfTrim(s: string)
    ensures Digits(Trim(s)) == Digits(s)
  {
    var t := TrimStart(s);
    DigitsOfTrimStart(s);
    DigitsOfTrimEnd(t);
  }

  lemma DigitsOfTrimStart(s: string)
    ensures Digits(TrimStart(s)) == Digits(s)
  {
    var t := TrimStart(s);
    var lead := s[..|s| - |t|];
    assert s == lead + t;
    DigitsConcat(lead, t);
    SpaceHasNoDigits(lead);
  }

  lemma DigitsOfTrimEnd(t: string)
    ensures Digits(TrimEnd(t)) == Digits(t)
  {
    var r := TrimEnd(t);
    var tail := t[|r|..];
    assert t == r + tail;
    DigitsConcat(r, tail);
    SpaceHasNoDigits(tail);
  }

  lemma SpaceHasNoDigits(s: string)
    requires AllSpace(s)
    ensures Digits(s) == []
  {
    DigitsOfDigits(s);
  }

  /** `split(' ')[0]`: the text before the first plain space, or all of `s`. */
  function FirstToken(s: string): (r: string)
    ensures |r| <= |s| && r == s[..|r|]
    ensures ' ' !in r
    ensures |r| == |s| || s[|r|] == ' '
  {
    if s == [] || s[0] == ' ' then [] else [s[0]] + FirstToken(s[1..])
  }
}
