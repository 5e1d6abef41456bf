/**
 * The Python string primitives the invoice code relies on: str.isspace,
 * str.strip, str.count, repetition with `*`, str.rfind, int() on a string
 * and str() on an int.
 */
module Text {
  import opened Optional

  /** Python's str.isspace on one character; also what `\s` matches in a str pattern. */
  predicate IsSpace(c: char) {
    || c == ' '
    || ('\t' <= c <= '\r')
    || ('\U{1C}' <= c <= '\U{1F}')
    || c == '\U{85}' || c == '\U{A0}' || c == '\U{1680}'
    || ('\U{2000}' <= c <= '\U{200A}')
    || c == '\U{2028}' || c == '\U{2029}' || c == '\U{202F}' || c == '\U{205F}' || c == '\U{3000}'
  }

  /** Every character of `w` is whitespace. */
  predicate AllSpace(w: string) {
    forall i :: 0 <= i < |w| ==> IsSpace(w[i])
  }

  /** No whitespace at either end. */
  predicate Trimmed(s: string) {
    s == [] || (!IsSpace(s[0]) && !IsSpace(s[|s| - 1]))
  }

  /** str.lstrip(): the suffix of `s` left after dropping leading whitespace. */
  function TrimLeft(s: string): (r: string)
    ensures |r| <= |s|
    ensures r == [] || (!IsSpace(r[0]) && r[|r| - 1] == s[|s| - 1])
  {
    if s != [] && IsSpace(s[0]) then TrimLeft(s[1..]) else s
  }

  /** str.rstrip(): the prefix of `s` left after dropping trailing whitespace. */
  function TrimRight(s: string): (r: string)
    ensures |r| <= |s|
    ensures r == [] || (!IsSpace(r[|r| - 1]) && r[0] == s[0])
  {
    if s != [] && IsSpace(s[|s| - 1]) then TrimRight(s[..|s| - 1]) else s
  }

  /** What lstrip leaves is a suffix of its argument. */
  lemma {:induction false} TrimLeftIsSuffix(s: string)
    ensures TrimLeft(s) == s[|s| - |TrimLeft(s)|..]
  {
    if s != [] && IsSpace(s[0]) {
      TrimLeftIsSuffix(s[1..]);
    }
  }

  /** What rstrip leaves is a prefix of its argument. */
  lemma {:induction false} TrimRightIsPrefix(s: string)
    ensures TrimRight(s) == s[..|TrimRight(s)|]
  {
    if s != [] && IsSpace(s[|s| - 1]) {
      TrimRightIsPrefix(s[..|s| - 1]);
    }
  }

  /** Everything lstrip drops is whitespace. */
  lemma {:induction false} TrimLeftDropsSpace(s: string)
    ensures forall i :: 0 <= i < |s| - |TrimLeft(s)| ==> IsSpace(s[i])
  {
    if s != [] && IsSpace(s[0]) {
      TrimLeftDropsSpace(s[1..]);
      forall i | 1 <= i < |s| - |TrimLeft(s)|
        ensures IsSpace(s[i])
      {
        assert s[i] == s[1..][i - 1];
      }
    }
  }

  /** Everything rstrip drops is whitespace. */
  lemma {:induction false} TrimRightDropsSpace(s: string)
    ensures forall i :: |TrimRight(s)| <= i < |s| ==> IsSpace(s[i])
  {
    if s != [] && IsSpace(s[|s| - 1]) {
      TrimRightDropsSpace(s[..|s| - 1]);
      forall i | |TrimRight(s)| <= i < |s| - 1
        ensures IsSpace(s[i])
      {
        assert s[i] == s[..|s| - 1][i];
      }
    }
  }

  /** lstrip drops exactly the whitespace put in front of text that starts with a non-space. */
  lemma {:induction false} TrimLeftPadded(w: string, b: string)
    requires AllSpace(w)
    requires b == [] || !IsSpace(b[0])
    ensures TrimLeft(w + b) == b
  {
    if w == [] {
      assert w + b == b;
    } else {
      assert (w + b)[1..] == w[1..] + b;
      TrimLeftPadded(w[1..], b);
    }
  }

  /** rstrip drops exactly the whitespace put after text that ends with a non-space. */
  lemma {:induction false} TrimRightPadded(b: string, w: string)
    requires AllSpace(w)
    requires b == [] || !IsSpace(b[|b| - 1])
    ensures TrimRight(b + w) == b
  {
    if w == [] {
      assert b + w == b;
    } else {
      assert (b + w)[..|b + w| - 1] == b + w[..|w| - 1];
      TrimRightPadded(b, w[..|w| - 1]);
    }
  }

  /** str.strip(). */
  function Strip(s: string): (r: string)
    ensures |r| <= |s|
    ensures Trimmed(r)
  {
    TrimRight(TrimLeft(s))
  }

  /** strip() undoes whitespace padding: it returns exactly the trimmed text that was padded. */
  lemma {:induction false} StripPadded(w1: string, b: string, w2: string)
    requires AllSpace(w1) && AllSpace(w2) && Trimmed(b)
    ensures Strip(w1 + b + w2) == b
  {
    assert w1 + b + w2 == w1 + (b + w2);
    if b == [] {
      assert AllSpace(w1 + w2);
      TrimLeftPadded(w1 + w2, []);
      assert w1 + w2 + [] == w1 + (b + w2);
    } else {
      TrimLeftPadded(w1, b + w2);
      TrimRightPadded(b, w2);
    }
  }

  /** Text with no surrounding whitespace is its own strip. */
  lemma {:induction false} StripUntrimmed(s: string)
    requires Trimmed(s)
    ensures Strip(s) == s
  {
  }

  /** str.count for a one-character needle. */
  function Count(s: string, c: char): (n: nat)
    ensures n <= |s|
    ensures n == 0 <==> c !in s
  {
    if s == [] then 0 else (if s[0] == c then 1 else 0) + Count(s[1..], c)
  }

  lemma {:induction false} CountAppend(a: string, b: string, c: char)
    ensures Count(a + b, c) == Count(a, c) + Count(b, c)
  {
    if a == [] {
      assert a + b == b;
    } else {
      assert (a + b)[1..] == a[1..] + b;
      CountAppend(a[1..], b, c);
    }
  }

  /** `[c] * n` in Python: n copies of c. */
  function Repeat(c: char, n: nat): (r: string)
    ensures |r| == n
    ensures forall i :: 0 <= i < n ==> r[i] == c
  {
    if n == 0 then [] else Repeat(c, n - 1) + [c]
  }

  lemma {:induction false} CountRepeat(c: char, n: nat, d: char)
    ensures Count(Repeat(c, n), d) == if c == d then n else 0
  {
    if n > 0 {
      CountRepeat(c, n - 1, d);
      CountAppend(Repeat(c, n - 1), [c], d);
      assert Count([c], d) == if c == d then 1 else 0 by {
        assert [c][1..] == [];
      }
    }
  }

  /** str.rfind for one character, None in place of -1. */
  function LastIndexOf(s: string, c: char): (r: Option<nat>)
    ensures r.None? <==> c !in s
    ensures r.Some? ==> r.value < |s| && s[r.value] == c && c !in s[r.value + 1..]
  {
    if s == [] then None
    else if s[|s| - 1] == c then Some(|s| - 1)
    else
      var r := LastIndexOf(s[..|s| - 1], c);
      assert r.Some? ==> s[r.value + 1..] == s[..|s| - 1][r.value + 1..] + [s[|s| - 1]];
      assert s == s[..|s| - 1] + [s[|s| - 1]];
      r
  }

  /** The last occurrence is the one with none after it. */
  lemma {:induction false} AbsentFromPrefix(a: string, b: string, c: char)
    requires a <= b && c !in b
    ensures c !in a
  {
    forall i | 0 <= i < |a|
      ensures a[i] != c
    {
      assert a[i] == b[i];
    }
  }

  lemma {:induction false} LastIndexOfUnique(s: string, c: char, k: nat)
    requires k < |s| && s[k] == c && c !in s[k + 1..]
    ensures LastIndexOf(s, c) == Some(k)
  {
    var j := LastIndexOf(s, c).value;
    forall i | j < i < |s|
      ensures s[i] != c
    {
      assert s[i] == s[j + 1..][i - j - 1];
    }
    forall i | k < i < |s|
      ensures s[i] != c
    {
      assert s[i] == s[k + 1..][i - k - 1];
    }
  }

  predicate IsDigit(c: char) {
    '0' <= c <= '9'
  }

  /**
   * The digit part that int() accepts in base 10: one or more decimal digits,
   * where an underscore may stand only between two digits.
   */
  predicate IsDigitRun(s: string) {
    |s| > 0 && IsDigit(s[0]) && IsRunTail(s[1..])
  }

  /** What may follow a digit in a digit run: digits, each optionally preceded by one underscore. */
  predicate IsRunTail(t: string)
    decreases |t|
  {
    || t == []
    || (IsDigit(t[0]) && IsRunTail(t[1..]))
    || (|t| >= 2 && t[0] == '_' && IsDigit(t[1]) && IsRunTail(t[2..]))
  }

  /** A non-empty digit-run tail ends in a digit. */
  lemma {:induction false} RunTailEndsInDigit(t: string)
    requires IsRunTail(t) && t != []
    ensures IsDigit(t[|t| - 1])
  {
    if IsDigit(t[0]) && IsRunTail(t[1..]) {
      if |t| > 1 {
        RunTailEndsInDigit(t[1..]);
      }
    } else if |t| > 2 {
      RunTailEndsInDigit(t[2..]);
    }
  }

  lemma {:induction false} AllDigitsIsRunTail(t: string)
    requires forall i :: 0 <= i < |t| ==> IsDigit(t[i])
    ensures IsRunTail(t)
  {
    if t != [] {
      AllDigitsIsRunTail(t[1..]);
    }
  }

  /** The value of a digit run, underscores skipped. */
  function DigitsValue(s: string): nat {
    if s == [] then 0
    else if IsDigit(s[|s| - 1]) then DigitsValue(s[..|s| - 1]) * 10 + (s[|s| - 1] as int - '0' as int)
    else DigitsValue(s[..|s| - 1])
  }

  /** sys.int_max_str_digits at its default: the most digits int() and str() convert in base 10. */
  const MaxStrDigits: nat := 4300

  /**
   * U+001C..U+001F: whitespace to str.isspace, but not to int(), which skips
   * only ASCII tab, newline, vertical tab, form feed, carriage return and
   * space, and whitespace beyond ASCII.
   */
  predicate IsSeparator(c: char) {
    '\U{1C}' <= c <= '\U{1F}'
  }

  predicate NoSeparators(s: string) {
    forall i :: 0 <= i < |s| ==> !IsSeparator(s[i])
  }

  /**
   * int(s) for a str argument in base 10: surrounding whitespace is ignored,
   * one optional sign, then a digit run of at most MaxStrDigits digits
   * (underscores not counted); None where Python raises ValueError. A
   * separator character anywhere makes it fail: at either end int() does not
   * skip it, and inside it breaks the digit run.
   */
  function ParseInt(s: string): Option<int> {
    var t := Strip(s);
    var signed := |t| > 0 && (t[0] == '-' || t[0] == '+');
    var body := if signed then t[1..] else t;
    var magnitude: int := DigitsValue(body);
    if !NoSeparators(s) || !IsDigitRun(body) || |body| - Count(body, '_') > MaxStrDigits then None
    else if signed && t[0] == '-' then Some(-magnitude)
    else Some(magnitude)
  }

  /**
   * What int() accepts ends, once stripped, in a digit, and a negative result
   * comes only from text that starts with '-'.
   */
  lemma {:induction false} ParseIntShape(s: string)
    ensures ParseInt(s).Some? ==> Strip(s) != [] && IsDigit(Strip(s)[|Strip(s)| - 1])
    ensures ParseInt(s).Some? && ParseInt(s).value < 0 ==> Strip(s)[0] == '-'
  {
    var t := Strip(s);
    var body := if |t| > 0 && (t[0] == '-' || t[0] == '+') then t[1..] else t;
    if ParseInt(s).Some? {
      RunTailEndsInDigit(body);
    }
  }

  /** int() ignores whitespace around its argument, separators excepted. */
  lemma {:induction false} ParseIntIgnoresPadding(w1: string, t: string, w2: string)
    requires AllSpace(w1) && AllSpace(w2) && NoSeparators(w1) && NoSeparators(w2) && Trimmed(t)
    ensures ParseInt(w1 + t + w2) == ParseInt(t)
  {
    StripPadded(w1, t, w2);
    StripUntrimmed(t);
    var s := w1 + t + w2;
    assert NoSeparators(s) <==> NoSeparators(t) by {
      if NoSeparators(t) {
        forall i | 0 <= i < |s| ensures !IsSeparator(s[i]) {
          if i < |w1| {
            assert s[i] == w1[i];
          } else if i < |w1| + |t| {
            assert s[i] == t[i - |w1|];
          } else {
            assert s[i] == w2[i - |w1| - |t|];
          }
        }
      } else {
        var k :| 0 <= k < |t| && IsSeparator(t[k]);
        assert s[|w1| + k] == t[k];
      }
    }
  }

  /** Unlike strip(), int() refuses text holding a separator, even as padding. */
  lemma {:induction false} ParseIntRejectsSeparators(s: string)
    requires !NoSeparators(s)
    ensures ParseInt(s) == None
  {
  }

  /** int() refuses a run of more than MaxStrDigits digits. */
  lemma {:induction false} ParseIntTooLong(s: string)
    requires forall i :: 0 <= i < |s| ==> IsDigit(s[i])
    requires |s| > MaxStrDigits
    ensures ParseInt(s) == None
  {
  }

  function DigitChar(d: nat): (c: char)
    requires d < 10
    ensures IsDigit(c) && c as int - '0' as int == d
  {
    (d + '0' as int) as char
  }

  /** str(n) for a non-negative int: its decimal digits, no underscores. */
  function NatToString(n: nat): (s: string)
    ensures |s| > 0
    ensures forall i :: 0 <= i < |s| ==> IsDigit(s[i])
    ensures DigitsValue(s) == n
    ensures |s| == 1 || s[0] != '0'
  {
    if n < 10 then
      var s := [DigitChar(n)];
      assert s[..0] == [];
      s
    else
      var prefix := NatToString(n / 10);
      var s := prefix + [DigitChar(n % 10)];
      assert s[..|s| - 1] == prefix;
      s
  }

  /** str(i) for an int. */
  function IntToString(i: int): string {
    if i < 0 then "-" + NatToString(-i) else NatToString(i)
  }

  /** int() reads back what str() writes, for every int str() converts. */
  lemma {:induction false} ParseIntRoundTrip(i: int)
    requires |NatToString(if i < 0 then -i else i)| <= MaxStrDigits
    ensures ParseInt(IntToString(i)) == Some(i)
  {
    ParseIntSignedDigits(i < 0, NatToString(if i < 0 then -i else i));
  }

  /** int() of an optional minus sign followed by at most MaxStrDigits plain digits. */
  lemma {:induction false} ParseIntSignedDigits(negative: bool, digits: string)
    requires digits != [] && |digits| <= MaxStrDigits
    requires forall k :: 0 <= k < |digits| ==> IsDigit(digits[k])
    ensures ParseInt(if negative then "-" + digits else digits)
         == Some(if negative then -(DigitsValue(digits) as int) else DigitsValue(digits) as int)
  {
    var s := if negative then "-" + digits else digits;
    assert '_' !in digits;
    assert NoSeparators(s) by {
      forall k | 0 <= k < |s| ensures !IsSeparator(s[k]) {
        if negative && k > 0 {
          assert s[k] == digits[k - 1];
        }
      }
    }
    assert IsDigitRun(digits) by {
      AllDigitsIsRunTail(digits[1..]);
    }
    assert Strip(s) == s by {
      StripUntrimmed(s);
    }
    assert Count(digits, '_') == 0;
    if negative {
      assert s[0] == '-' && s[1..] == digits;
    } else {
      assert s[0] != '-' && s[0] != '+';
    }
  }
}
