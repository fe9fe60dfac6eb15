/**
 * The few Python string built-ins the scraper relies on: str.strip(), int() of a
 * string, str() of a non-negative int, str.replace(c, '') and the first match of
 * the regular expression (\d+).
 */
module Text {
  import opened Wrappers

  /** An ASCII decimal digit (the only digits this model admits). */
  predicate IsDigit(c: char) {
    '0' <= c <= '9'
  }

  predicate AllDigits(s: string) {
    forall i :: 0 <= i < |s| ==> IsDigit(s[i])
  }

  predicate NoDigits(s: string) {
    forall i :: 0 <= i < |s| ==> !IsDigit(s[i])
  }

  /** The characters for which Python's str.isspace() holds; str.strip() removes them. */
  predicate IsSpace(c: char) {
    || c == ' '
    || '\t' <= c <= '\r'
    || '\U{1c}' <= c <= '\U{1f}'
    || c == '\U{85}'
    || c == '\U{a0}'
    || c == '\U{1680}'
    || '\U{2000}' <= c <= '\U{200a}'
    || c == '\U{2028}'
    || c == '\U{2029}'
    || c == '\U{202f}'
    || c == '\U{205f}'
    || c == '\U{3000}'
  }

  predicate AllSpaces(s: string) {
    forall i :: 0 <= i < |s| ==> IsSpace(s[i])
  }

  /**
   * The whitespace int() skips: int() first turns every non-ASCII whitespace character
   * into a space and copies ASCII characters unchanged, then skips C's isspace().
   * That is all of str.strip()'s whitespace except U+001C..U+001F.
   */
  predicate IsIntSpace(c: char) {
    IsSpace(c) && !('\U{1c}' <= c <= '\U{1f}')
  }

  predicate AllIntSpaces(s: string) {
    forall i :: 0 <= i < |s| ==> IsIntSpace(s[i])
  }

  // ---------------------------------------------------------------------------
  // str.strip()

  /** Drops the leading whitespace: what is left is a suffix of s that starts with a non-space. */
  function StripLeading(s: string): (r: string)
    ensures |r| <= |s| && r == s[|s| - |r|..]
    ensures AllSpaces(s[..|s| - |r|])
    ensures r == [] || !IsSpace(r[0])
  {
    if s != [] && IsSpace(s[0]) then
      var t := s[1..];
      var r := StripLeading(t);
      assert r == s[|s| - |r|..] by {
        assert s[|s| - |r|..] == t[|t| - |r|..];
      }
      assert AllSpaces(s[..|s| - |r|]) by {
        assert s[..|s| - |r|] == [s[0]] + t[..|t| - |r|];
      }
      r
    else s
  }

  /** Drops the trailing whitespace: what is left is a prefix of s that ends with a non-space. */
  function StripTrailing(s: string): (r: string)
    ensures |r| <= |s| && r == s[..|r|]
    ensures AllSpaces(s[|r|..])
    ensures r == [] || !IsSpace(r[|r| - 1])
  {
    if s != [] && IsSpace(s[|s| - 1]) then
      var t := s[..|s| - 1];
      var r := StripTrailing(t);
      assert r == s[..|r|] by {
        assert s[..|r|] == t[..|r|];
      }
      assert AllSpaces(s[|r|..]) by {
        assert s[|r|..] == t[|r|..] + [s[|s| - 1]];
      }
      r
    else s
  }

  /** Python's str.strip() with no argument. */
  function Strip(s: string): (r: string)
    ensures r == [] || (!IsSpace(r[0]) && !IsSpace(r[|r| - 1]))
  {
    StripTrailing(StripLeading(s))
  }

  lemma {:induction false} StripLeadingSpaces(pre: string, t: string)
    requires AllSpaces(pre)
    requires t == [] || !IsSpace(t[0])
    ensures StripLeading(pre + t) == t
  {
    if pre != [] {
      assert (pre + t)[1..] == pre[1..] + t;
      StripLeadingSpaces(pre[1..], t);
    }
  }

  lemma {:induction false} StripTrailingSpaces(t: string, post: string)
    requires AllSpaces(post)
    requires t == [] || !IsSpace(t[|t| - 1])
    ensures StripTrailing(t + post) == t
  {
    if post != [] {
      assert (t + post)[..|t + post| - 1] == t + post[..|post| - 1];
      StripTrailingSpaces(t, post[..|post| - 1]);
    }
  }

  /** Stripping removes exactly the whitespace padding around a core that has none at its ends. */
  lemma StripPadded(pre: string, core: string, post: string)
    requires AllSpaces(pre) && AllSpaces(post)
    requires core == [] || (!IsSpace(core[0]) && !IsSpace(core[|core| - 1]))
    ensures Strip(pre + core + post) == core
  {
    if core == [] {
      assert pre + core + post == (pre + post) + [];
      StripLeadingSpaces(pre + post, []);
    } else {
      assert pre + core + post == pre + (core + post);
      StripLeadingSpaces(pre, core + post);
      StripTrailingSpaces(core, post);
    }
  }

  /** Stripping twice is stripping once. */
  lemma StripIdempotent(s: string)
    ensures Strip(Strip(s)) == Strip(s)
  {
    StripPadded([], Strip(s), []);
    assert [] + Strip(s) + [] == Strip(s);
  }

  // ---------------------------------------------------------------------------
  // str.replace(c, '')

  /** Every occurrence of c removed; the other characters are kept, in order. */
  function RemoveChar(s: string, c: char): (r: string)
    ensures c !in r
    ensures |r| <= |s|
    ensures forall x :: x in r ==> x in s
    ensures forall x :: x != c ==> multiset(r)[x] == multiset(s)[x]
  {
    if s == [] then []
    else
      assert s == [s[0]] + s[1..];
      (if s[0] == c then [] else [s[0]]) + RemoveChar(s[1..], c)
  }

  /** Removal distributes over concatenation, so the order of the kept characters is that of s. */
  lemma {:induction false} RemoveCharAppend(a: string, b: string, c: char)
    ensures RemoveChar(a + b, c) == RemoveChar(a, c) + RemoveChar(b, c)
  {
    if a == [] {
      assert a + b == b;
    } else {
      assert (a + b)[1..] == a[1..] + b;
      RemoveCharAppend(a[1..], b, c);
    }
  }

  /** Removing a character that does not occur changes nothing. */
  lemma {:induction false} RemoveCharAbsent(s: string, c: char)
    requires c !in s
    ensures RemoveChar(s, c) == s
  {
    if s != [] {
      RemoveCharAbsent(s[1..], c);
    }
  }

  // ---------------------------------------------------------------------------
  // Decimal numerals: int() of a run of digits, and str() of a non-negative int

  function DigitValue(c: char): (d: nat)
    requires IsDigit(c)
    ensures d < 10
  {
    (c as int) - ('0' as int)
  }

  function DigitChar(d: nat): (c: char)
    requires d < 10
    ensures IsDigit(c) && DigitValue(c) == d
  {
    ('0' as int + d) as char
  }

  /** The value of a string of decimal digits, most significant first. */
  function DigitsValue(s: string): nat
    requires AllDigits(s)
  {
    if s == [] then 0 else DigitsValue(s[..|s| - 1]) * 10 + DigitValue(s[|s| - 1])
  }

  /** Python's str(n) for n >= 0: the shortest decimal numeral, which reads back as n. */
  function DecimalString(n: nat): (r: string)
    ensures r != [] && AllDigits(r)
    ensures DigitsValue(r) == n
    ensures r[0] == '0' ==> r == "0"
  {
    if n < 10 then [DigitChar(n)]
    else
      var r := DecimalString(n / 10) + [DigitChar(n % 10)];
      assert r[..|r| - 1] == DecimalString(n / 10);
      r
  }

  // ---------------------------------------------------------------------------
  // The first match of (\d+)

  /** The longest prefix of s made of digits. */
  function TakeDigits(s: string): (r: string)
    ensures |r| <= |s| && r == s[..|r|] && AllDigits(r)
    ensures |r| == |s| || !IsDigit(s[|r|])
  {
    if s != [] && IsDigit(s[0]) then [s[0]] + TakeDigits(s[1..]) else []
  }

  /** The first maximal run of digits in s, or None when s holds no digit. */
  function FirstDigitRun(s: string): (r: Option<string>)
    ensures r.None? <==> NoDigits(s)
    ensures r.Some? ==> r.value != [] && AllDigits(r.value)
  {
    if s == [] then None
    else if IsDigit(s[0]) then Some(TakeDigits(s))
    else FirstDigitRun(s[1..])
  }

  lemma {:induction false} TakeDigitsRun(run: string, post: string)
    requires AllDigits(run)
    requires post == [] || !IsDigit(post[0])
    ensures TakeDigits(run + post) == run
  {
    if run != [] {
      assert (run + post)[1..] == run[1..] + post;
      TakeDigitsRun(run[1..], post);
    }
  }

  /** The run found is the one that follows the digit-free prefix and stops at the first non-digit. */
  lemma {:induction false} FirstDigitRunAfter(pre: string, run: string, post: string)
    requires NoDigits(pre)
    requires run != [] && AllDigits(run)
    requires post == [] || !IsDigit(post[0])
    ensures FirstDigitRun(pre + run + post) == Some(run)
  {
    if pre == [] {
      assert pre + run + post == run + post;
      TakeDigitsRun(run, post);
    } else {
      assert (pre + run + post)[1..] == pre[1..] + run + post;
      FirstDigitRunAfter(pre[1..], run, post);
    }
  }

  // ---------------------------------------------------------------------------
  // int(s) for a str s, base 10

  /**
   * The digits part Python's int() accepts: digits, with single underscores allowed
   * between two digits.
   */
  predicate IntegerBody(b: string) {
    && b != []
    && IsDigit(b[0])
    && IsDigit(b[|b| - 1])
    && (forall i :: 0 <= i < |b| ==> IsDigit(b[i]) || b[i] == '_')
    && (forall i :: 0 < i < |b| ==> IsDigit(b[i - 1]) || IsDigit(b[i]))
  }

  lemma DigitsOnceUnderscoresGone(b: string)
    requires IntegerBody(b)
    ensures AllDigits(RemoveChar(b, '_'))
  {
    var r := RemoveChar(b, '_');
    forall i | 0 <= i < |r| ensures IsDigit(r[i]) {
      assert r[i] in r;
      assert r[i] in b;
      var j :| 0 <= j < |b| && b[j] == r[i];
    }
  }

  /** Every character str.strip() removes from s is one int() skips. */
  predicate IntSkipsPadding(s: string) {
    var l := StripLeading(s);
    AllIntSpaces(s[..|s| - |l|]) && AllIntSpaces(l[|StripTrailing(l)|..])
  }

  /**
   * Python's int(s): surrounding whitespace is ignored, an optional sign is allowed,
   * and the rest must be an IntegerBody; anything else raises (None here).
   */
  function ParseInt(s: string): (r: Option<int>)
    ensures r.Some? <==> IntText(s)
  {
    if IntSkipsPadding(s) then ParseSigned(Strip(s)) else None
  }

  /** An integer literal once the padding is gone: an IntegerBody with an optional sign in front. */
  predicate IntLiteral(t: string) {
    || IntegerBody(t)
    || (t != [] && (t[0] == '+' || t[0] == '-') && IntegerBody(t[1..]))
  }

  /** The strings int() accepts: padding it skips around an integer literal. */
  predicate IntText(s: string) {
    IntSkipsPadding(s) && IntLiteral(Strip(s))
  }

  /** int() of an already stripped string: an optional sign followed by an IntegerBody. */
  function ParseSigned(t: string): (r: Option<int>)
    ensures r.Some? <==> IntLiteral(t)
  {
    var signed := t != [] && (t[0] == '+' || t[0] == '-');
    var body := if signed then t[1..] else t;
    if IntegerBody(body) then
      DigitsOnceUnderscoresGone(body);
      var v: int := DigitsValue(RemoveChar(body, '_'));
      Some(if signed && t[0] == '-' then -v else v)
    else None
  }

  lemma ParseSignedDecimal(n: nat, negative: bool)
    ensures ParseSigned((if negative then "-" else "") + DecimalString(n))
         == Some(if negative then -(n as int) else n as int)
  {
    var d := DecimalString(n);
    assert IntegerBody(d);
    assert forall i :: 0 <= i < |d| ==> d[i] != '_';
    RemoveCharAbsent(d, '_');
    if negative {
      var t := "-" + d;
      assert t[0] == '-' && t[1..] == d;
      assert ParseSigned(t) == Some(-(n as int));
      assert (if negative then "-" else "") + d == t;
    } else {
      assert !(d[0] == '+' || d[0] == '-');
      assert (if negative then "-" else "") + d == d;
    }
  }

  /** int() ignores whitespace padding around a numeral. */
  lemma ParseIntPadded(pre: string, core: string, post: string)
    requires AllIntSpaces(pre) && AllIntSpaces(post)
    requires core != [] && !IsSpace(core[0]) && !IsSpace(core[|core| - 1])
    ensures ParseInt(pre + core + post) == ParseSigned(core)
  {
    var s := pre + core + post;
    assert s == pre + (core + post);
    StripLeadingSpaces(pre, core + post);
    StripTrailingSpaces(core, post);
    assert s[..|s| - |core + post|] == pre;
    assert (core + post)[|core|..] == post;
    StripPadded(pre, core, post);
  }

  /** int() of a bare run of digits is its value, leading zeros included: int("05") == 5. */
  lemma ParseSignedDigits(run: string)
    requires run != [] && AllDigits(run)
    ensures ParseSigned(run) == Some(DigitsValue(run) as int)
  {
    assert IntegerBody(run);
    assert !(run[0] == '+' || run[0] == '-');
    assert '_' !in run by {
      assert forall i :: 0 <= i < |run| ==> run[i] != '_';
    }
    RemoveCharAbsent(run, '_');
  }

  /** int() of a run of digits, such as a `\d+` capture, is its value, leading zeros included. */
  lemma ParseIntDigitRun(run: string)
    requires run != [] && AllDigits(run)
    ensures ParseInt(run) == Some(DigitsValue(run) as int)
  {
    assert !IsSpace(run[0]) && !IsSpace(run[|run| - 1]) by {
      assert IsDigit(run[0]) && IsDigit(run[|run| - 1]);
    }
    assert [] + run + [] == run;
    ParseIntPadded([], run, []);
    ParseSignedDigits(run);
  }

  /** Underscores between digit groups do not change the value: int("1_000") == int("1000"). */
  lemma ParseSignedUnderscores(b: string)
    requires IntegerBody(b)
    ensures ParseSigned(b) == ParseSigned(RemoveChar(b, '_'))
  {
    var r := RemoveChar(b, '_');
    DigitsOnceUnderscoresGone(b);
    assert r != [] by {
      assert b[0] != '_';
      assert multiset(b)[b[0]] > 0;
      assert multiset(r)[b[0]] > 0;
    }
    ParseSignedDigits(r);
    assert !(b[0] == '+' || b[0] == '-') by {
      assert IsDigit(b[0]);
    }
  }

  /**
   * A sign in front of an integer body: '+' keeps its value and '-' negates it; in
   * front of anything else, such as a second sign, int() raises.
   */
  lemma ParseSignedSign(b: string)
    ensures IntegerBody(b) ==>
      && ParseSigned(b).Some?
      && ParseSigned("+" + b) == ParseSigned(b)
      && ParseSigned("-" + b) == Some(-ParseSigned(b).value)
    ensures !IntegerBody(b) ==> ParseSigned("+" + b) == None && ParseSigned("-" + b) == None
  {
    assert ("+" + b)[1..] == b && ("-" + b)[1..] == b;
    if IntegerBody(b) {
      assert !(b[0] == '+' || b[0] == '-') by {
        assert IsDigit(b[0]);
      }
    }
  }

  /** int() reads back what str() wrote, with or without a minus sign and whitespace padding. */
  lemma ParseIntDecimal(pre: string, n: nat, post: string, negative: bool)
    requires AllIntSpaces(pre) && AllIntSpaces(post)
    ensures ParseInt(pre + (if negative then "-" else "") + DecimalString(n) + post)
         == Some(if negative then -(n as int) else n as int)
  {
    var d := DecimalString(n);
    var sign := if negative then "-" else "";
    var core := sign + d;
    assert IsDigit(d[0]) && IsDigit(d[|d| - 1]);
    assert core[|core| - 1] == d[|d| - 1];
    assert core[0] == if negative then '-' else d[0];
    assert pre + sign + d + post == pre + core + post;
    ParseIntPadded(pre, core, post);
    ParseSignedDecimal(n, negative);
  }

  /** int(str(n)) == n. */
  lemma ParseIntOfDecimal(n: nat)
    ensures ParseInt(DecimalString(n)) == Some(n as int)
  {
    var d := DecimalString(n);
    assert [] + d + [] == d;
    ParseIntPadded([], d, []);
    ParseSignedDecimal(n, false);
    assert "" + d == d;
  }

  /** int() raises on any text without a digit, such as an empty label. */
  lemma ParseIntNeedsDigit(s: string)
    requires NoDigits(s)
    ensures ParseInt(s) == None
  {
    var l := StripLeading(s);
    var t := Strip(s);
    assert t == l[..|t|];
    if t != [] {
      assert t[0] == s[|s| - |l|];
      if |t| > 1 {
        assert t[1] == s[|s| - |l| + 1];
      }
    }
  }

  /**
   * int() raises on text that, once stripped, holds a character other than a digit
   * or an underscore, unless it is a sign in front: "12 pcs", "1,5", "3.0".
   */
  lemma ParseIntRejectsStray(s: string, i: nat)
    requires i < |Strip(s)|
    requires !IsDigit(Strip(s)[i]) && Strip(s)[i] != '_'
    requires i > 0 || (Strip(s)[i] != '+' && Strip(s)[i] != '-')
    ensures ParseInt(s) == None
  {
    var t := Strip(s);
    if i > 0 {
      assert t[1..][i - 1] == t[i];
    }
  }

  /** Leading whitespace that int() does not skip makes it raise, although strip() removes it. */
  lemma ParseIntUnskippedLeading(pre: string, rest: string, i: nat)
    requires AllSpaces(pre) && i < |pre| && !IsIntSpace(pre[i])
    requires rest == [] || !IsSpace(rest[0])
    ensures ParseInt(pre + rest) == None
  {
    var s := pre + rest;
    StripLeadingSpaces(pre, rest);
    assert s[..|s| - |rest|] == pre;
    assert !IntSkipsPadding(s);
  }

  /** Trailing whitespace that int() does not skip makes it raise, although strip() removes it. */
  lemma ParseIntUnskippedTrailing(core: string, post: string, i: nat)
    requires core != [] && !IsSpace(core[0]) && !IsSpace(core[|core| - 1])
    requires AllSpaces(post) && i < |post| && !IsIntSpace(post[i])
    ensures ParseInt(core + post) == None
  {
    var s := core + post;
    assert StripLeading(s) == s;
    StripTrailingSpaces(core, post);
    assert s[|core|..] == post;
    assert !IntSkipsPadding(s);
  }

  /** int() raises on a numeral preceded by U+001C..U+001F, whatever whitespace follows it. */
  lemma ParseIntControlLeading(c: char, n: nat, post: string)
    requires '\U{1c}' <= c <= '\U{1f}' && AllSpaces(post)
    ensures ParseInt([c] + DecimalString(n) + post) == None
  {
    var d := DecimalString(n);
    var rest := d + post;
    assert [c] + d + post == [c] + rest;
    assert !IsSpace(rest[0]) by {
      assert rest[0] == d[0] && IsDigit(d[0]);
    }
    assert AllSpaces([c]) && !IsIntSpace([c][0]);
    ParseIntUnskippedLeading([c], rest, 0);
  }

  /** int() raises on a numeral followed by U+001C..U+001F, whatever whitespace precedes it. */
  lemma ParseIntControlTrailing(pre: string, n: nat, c: char)
    requires '\U{1c}' <= c <= '\U{1f}' && AllSpaces(pre)
    ensures ParseInt(pre + DecimalString(n) + [c]) == None
  {
    var d := DecimalString(n);
    var s := pre + d + [c];
    assert IsDigit(d[0]) && IsDigit(d[|d| - 1]);
    assert s == pre + (d + [c]);
    StripLeadingSpaces(pre, d + [c]);
    StripTrailingSpaces(d, [c]);
    assert (d + [c])[|d|..] == [c];
    assert !IntSkipsPadding(s);
  }
}
