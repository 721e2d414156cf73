/** The pieces of Python's string handling the delegate relies on:
    `str.strip()`, `str.split(sep)` and base-10 `int()`. */
module Text {
  import opened Wrappers

  /** The characters `str.strip()` removes from a byte string. */
  predicate IsSpace(c: char) {
    c == ' ' || c == '\t' || c == '\n' || c == '\r' || c == '\U{000B}' || c == '\U{000C}'
  }

  /** True when `s` neither starts nor ends with whitespace. */
  predicate Trimmed(s: string) {
    s == [] || (!IsSpace(s[0]) && !IsSpace(s[|s| - 1]))
  }

  /** Drops the leading whitespace: the result is the suffix of `s` that
      starts at its first non-whitespace character. */
  function StripLeft(s: string): (r: string)
    ensures |r| <= |s| && r == s[|s| - |r|..]
    ensures r == [] || !IsSpace(r[0])
  {
    if s != [] && IsSpace(s[0]) then StripLeft(s[1..]) else s
  }

  /** Drops the trailing whitespace: the result is the prefix of `s` that
      ends at its last non-whitespace character. */
  function StripRight(s: string): (r: string)
    ensures |r| <= |s| && r == s[..|r|]
    ensures r == [] || !IsSpace(r[|r| - 1])
  {
    if s != [] && IsSpace(s[|s| - 1]) then StripRight(s[..|s| - 1]) else s
  }

  /** `StripLeft` removes only whitespace. */
  lemma {:induction false} StripLeftRemovesSpace(s: string)
    ensures forall i :: 0 <= i < |s| - |StripLeft(s)| ==> IsSpace(s[i])
  {
    if s != [] && IsSpace(s[0]) {
      StripLeftRemovesSpace(s[1..]);
      forall i | 1 <= i < |s| - |StripLeft(s)|
        ensures IsSpace(s[i])
      {
        assert s[i] == s[1..][i - 1];
      }
    }
  }

  /** `StripRight` removes only whitespace. */
  lemma {:induction false} StripRightRemovesSpace(s: string)
    ensures forall i :: |StripRight(s)| <= i < |s| ==> IsSpace(s[i])
  {
    if s != [] && IsSpace(s[|s| - 1]) {
      StripRightRemovesSpace(s[..|s| - 1]);
      forall i | |StripRight(s)| <= i < |s| - 1
        ensures IsSpace(s[i])
      {
        assert s[i] == s[..|s| - 1][i];
      }
    }
  }

  /** Python's `str.strip()` with no argument. */
  function Strip(s: string): (r: string)
    ensures Trimmed(r)
  {
    StripRight(StripLeft(s))
  }

  /** Stripping only removes characters: what remains is a slice of `s`. */
  lemma StripSlice(s: string)
    ensures var k := |s| - |StripLeft(s)|; k + |Strip(s)| <= |s| && Strip(s) == s[k..k + |Strip(s)|]
  {
  }

  /** A character absent from `s` is absent from `Strip(s)`. */
  lemma StripKeepsOut(s: string, c: char)
    requires c !in s
    ensures c !in Strip(s)
  {
    StripSlice(s);
  }

  /** Stripping text that is already trimmed changes nothing; in particular
      `Strip` is idempotent. */
  lemma StripTrimmed(s: string)
    requires Trimmed(s)
    ensures Strip(s) == s
  {
  }

  /** Number of occurrences of `c` in `s`. */
  function Count(s: string, c: char): (n: nat)
    ensures n == 0 <==> c !in s
    ensures n <= |s|
  {
    if s == [] then 0 else Count(s[1..], c) + (if s[0] == c then 1 else 0)
  }

  /** Python's `s.split(sep)` for a one-character separator. */
  function Split(s: string, sep: char): (parts: seq<string>)
    ensures parts != []
  {
    if s == [] then [[]]
    else
      var rest := Split(s[1..], sep);
      if s[0] == sep then [[]] + rest else [[s[0]] + rest[0]] + rest[1..]
  }

  /** The fields of a split: one more than there are separators, and none
      containing the separator. */
  lemma {:induction false} SplitFields(s: string, sep: char)
    ensures |Split(s, sep)| == Count(s, sep) + 1
    ensures forall i :: 0 <= i < |Split(s, sep)| ==> sep !in Split(s, sep)[i]
  {
    if s != [] {
      SplitFields(s[1..], sep);
      var rest := Split(s[1..], sep);
      if s[0] != sep {
        assert sep !in [s[0]] + rest[0];
      }
    }
  }

  /** Python's `sep.join(parts)`. */
  function Join(parts: seq<string>, sep: char): string {
    if parts == [] then []
    else if |parts| == 1 then parts[0]
    else parts[0] + [sep] + Join(parts[1..], sep)
  }

  /** Joining the fields of a split gives back the original text. */
  lemma {:induction false} JoinSplit(s: string, sep: char)
    ensures Join(Split(s, sep), sep) == s
  {
    if s != [] {
      var rest := Split(s[1..], sep);
      JoinSplit(s[1..], sep);
      if s[0] == sep {
        assert ([[]] + rest)[1..] == rest;
      } else if |rest| > 1 {
        assert ([[s[0]] + rest[0]] + rest[1..])[1..] == rest[1..];
        assert Join(rest, sep) == rest[0] + [sep] + Join(rest[1..], sep);
        assert s == [s[0]] + s[1..];
      } else {
        assert s == [s[0]] + s[1..];
      }
    }
  }

  /** Text without the separator is a single field. */
  lemma {:induction false} SplitSingleField(a: string, sep: char)
    requires sep !in a
    ensures Split(a, sep) == [a]
  {
    if a != [] {
      SplitSingleField(a[1..], sep);
      assert a == [a[0]] + a[1..];
    }
  }

  /** One step of `Split`: a separator starts a new field, any other
      character joins the first field of the rest. */
  lemma SplitCons(c: char, t: string, sep: char)
    ensures Split([c] + t, sep) ==
      if c == sep then [[]] + Split(t, sep) else [[c] + Split(t, sep)[0]] + Split(t, sep)[1..]
  {
    assert ([c] + t)[1..] == t;
  }

  /** The text before the first separator is the first field; the rest is
      split on its own. */
  lemma {:induction false} SplitFirstField(a: string, sep: char, b: string)
    requires sep !in a
    ensures Split(a + [sep] + b, sep) == [a] + Split(b, sep)
  {
    if a == [] {
      assert a + [sep] + b == [sep] + b;
      SplitCons(sep, b, sep);
    } else {
      var tail := a[1..] + [sep] + b;
      assert a + [sep] + b == [a[0]] + tail;
      SplitFirstField(a[1..], sep, b);
      SplitCons(a[0], tail, sep);
      assert [a[0]] + a[1..] == a;
    }
  }

  /** Splitting a join of separator-free fields gives back the fields. */
  lemma {:induction false} SplitJoin(parts: seq<string>, sep: char)
    requires |parts| >= 1
    requires forall i :: 0 <= i < |parts| ==> sep !in parts[i]
    ensures Split(Join(parts, sep), sep) == parts
  {
    if |parts| == 1 {
      SplitSingleField(parts[0], sep);
    } else {
      SplitJoin(parts[1..], sep);
      SplitFirstField(parts[0], sep, Join(parts[1..], sep));
      assert parts == [parts[0]] + parts[1..];
    }
  }

  predicate IsDigit(c: char) {
    '0' <= c <= '9'
  }

  predicate AllDigits(s: string) {
    forall i :: 0 <= i < |s| ==> IsDigit(s[i])
  }

  /** The value of a string of decimal digits, most significant first. */
  function DigitsValue(s: string): nat
    requires AllDigits(s)
  {
    if s == [] then 0 else DigitsValue(s[..|s| - 1]) * 10 + (s[|s| - 1] as int - '0' as int)
  }

  function DigitChar(d: nat): (c: char)
    requires d < 10
    ensures IsDigit(c) && c as int - '0' as int == d
  {
    ('0' as int + d) as char
  }

  /** The decimal rendering of a natural number, as `str(n)` gives it. */
  function ShowNat(n: nat): (s: string)
    ensures s != [] && AllDigits(s) && DigitsValue(s) == n
  {
    if n < 10 then [DigitChar(n)]
    else
      var s := ShowNat(n / 10) + [DigitChar(n % 10)];
      assert s[..|s| - 1] == ShowNat(n / 10);
      s
  }

  /** The decimal rendering of an integer, as `str(n)` gives it. */
  function ShowInt(n: int): string {
    if n < 0 then "-" + ShowNat(-n) else ShowNat(n)
  }

  /** Python 2's `int(s)` in base 10 on a byte string: surrounding whitespace,
      an optional sign, whitespace again after a sign, then at least one
      ASCII digit. `None` is the `ValueError` the built-in raises for
      anything else. */
  function ParseInt(s: string): (r: Option<int>)
    ensures Strip(s) == [] ==> r == None
  {
    var t := Strip(s);
    if t != [] && (t[0] == '-' || t[0] == '+') then
      var digits := StripLeft(t[1..]);
      if digits != [] && AllDigits(digits) then
        var v: int := DigitsValue(digits);
        Some(if t[0] == '-' then -v else v)
      else None
    else if t != [] && AllDigits(t) then Some(DigitsValue(t))
    else None
  }

  /** Text without leading whitespace is left as it is by `StripLeft`. */
  lemma StripLeftKeeps(s: string)
    requires s == [] || !IsSpace(s[0])
    ensures StripLeft(s) == s
  {
  }

  /** A leading whitespace character is dropped by `StripLeft`. */
  lemma StripLeftDrops(s: string)
    requires s != [] && IsSpace(s[0])
    ensures StripLeft(s) == StripLeft(s[1..])
  {
  }

  /** Trimmed text made of a minus sign, then text whose left-stripped form
      is digits, is the negated value of those digits. */
  lemma ParseNegative(s: string, digits: string)
    requires Trimmed(s) && s != [] && s[0] == '-'
    requires StripLeft(s[1..]) == digits && digits != [] && AllDigits(digits)
    ensures ParseInt(s) == Some(-(DigitsValue(digits) as int))
  {
    StripTrimmed(s);
  }

  /** `int(str(n)) == n` for every integer. */
  lemma ParseShowInt(n: int)
    ensures ParseInt(ShowInt(n)) == Some(n)
  {
    var s := ShowInt(n);
    var digits := ShowNat(if n < 0 then -n else n);
    assert Trimmed(s) by {
      assert !IsSpace(s[0]) && !IsSpace(s[|s| - 1]);
    }
    if n < 0 {
      assert s[0] == '-' && s[1..] == digits;
      StripLeftKeeps(digits);
      ParseNegative(s, digits);
    } else {
      assert s == digits;
      StripTrimmed(s);
    }
  }

  /** A run of whitespace in front of text that does not start with
      whitespace is exactly what `StripLeft` removes. */
  lemma {:induction false} StripLeftSpaces(gap: string, t: string)
    requires forall i :: 0 <= i < |gap| ==> IsSpace(gap[i])
    requires t == [] || !IsSpace(t[0])
    ensures StripLeft(gap + t) == t
  {
    if gap == [] {
      assert gap + t == t;
      StripLeftKeeps(t);
    } else {
      assert (gap + t)[1..] == gap[1..] + t;
      StripLeftDrops(gap + t);
      StripLeftSpaces(gap[1..], t);
    }
  }

  /** A minus sign, a gap and digits form trimmed text whose part after the
      sign is the gap and the digits. */
  lemma SignedText(gap: string, digits: string)
    requires digits != [] && AllDigits(digits)
    ensures var s := ['-'] + gap + digits; Trimmed(s) && s[0] == '-' && s[1..] == gap + digits
  {
    var s := ['-'] + gap + digits;
    assert s[|s| - 1] == digits[|digits| - 1];
  }

  /** Whitespace between the sign and the digits is skipped: a minus sign,
      a run of whitespace, then digits reads as the negated digits, as in
      `int('- 5') == -5`. */
  lemma ParseNegativeGap(gap: string, digits: string)
    requires forall i :: 0 <= i < |gap| ==> IsSpace(gap[i])
    requires digits != [] && AllDigits(digits)
    ensures ParseInt(['-'] + gap + digits) == Some(-(DigitsValue(digits) as int))
  {
    SignedText(gap, digits);
    StripLeftSpaces(gap, digits);
    ParseNegative(['-'] + gap + digits, digits);
  }

  /** A rendered integer never contains a character outside digits and '-'. */
  lemma ShowIntCharacters(n: int)
    ensures forall c :: c in ShowInt(n) ==> IsDigit(c) || c == '-'
    ensures Trimmed(ShowInt(n))
  {
    var digits := ShowNat(if n < 0 then -n else n);
    var s := ShowInt(n);
    assert n < 0 ==> s == ['-'] + digits;
    assert n >= 0 ==> s == digits;
    forall i | 0 <= i < |s|
      ensures IsDigit(s[i]) || s[i] == '-'
    {
      if n < 0 && i > 0 {
        assert s[i] == digits[i - 1];
      }
    }
    assert !IsSpace(s[0]) && !IsSpace(s[|s| - 1]);
  }
}
