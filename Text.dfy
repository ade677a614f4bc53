/** Strings, character classes and small helpers shared by the document
    processors, the retriever and the vector store. */
module Text {

  datatype Option<T> = None | Some(value: T)

  function Max(a: int, b: int): int { if a >= b then a else b }

  function Min(a: int, b: int): int { if a <= b then a else b }

  /** The three regular-expression classes the processors rely on: `\w`,
      `\s` (which is also the set that Python's `str.strip()` removes) and
      `\d`. Their Unicode tables are not written out: every operation that
      depends on them takes the classes as a parameter. */
  datatype CharClasses = CharClasses(word: set<char>, space: set<char>, digit: set<char>)

  /** The facts about the three classes that hold in Python and that the
      proofs rely on: the ASCII blanks are whitespace, the sentence
      terminators and `|` are not, no character is both a word character
      and whitespace, digits are word characters, and no control character
      is a word character. */
  predicate WellFormed(cc: CharClasses)
  {
    && ' ' in cc.space && '\n' in cc.space && '\t' in cc.space
    && '.' !in cc.space && '!' !in cc.space && '?' !in cc.space && '|' !in cc.space
    && cc.word !! cc.space
    && cc.digit <= cc.word
    && (forall c :: c in cc.word ==> c as int >= 32)
  }

  /** Every character of `s` is whitespace (Python: `not s.strip()`). */
  predicate Blank(cc: CharClasses, s: string)
  {
    forall c :: c in s ==> c in cc.space
  }

  /** Number of whitespace characters at the front of `s`. */
  function LeadingSpaces(cc: CharClasses, s: string): (n: nat)
    ensures n <= |s|
    ensures n < |s| ==> s[n] !in cc.space
  {
    if s != [] && s[0] in cc.space then 1 + LeadingSpaces(cc, s[1..]) else 0
  }

  /** Everything LeadingSpaces counts is whitespace. */
  lemma {:induction false} LeadingSpacesAreSpaces(cc: CharClasses, s: string)
    ensures forall i :: 0 <= i < LeadingSpaces(cc, s) ==> s[i] in cc.space
  {
    if s != [] && s[0] in cc.space {
      LeadingSpacesAreSpaces(cc, s[1..]);
      assert forall i :: 1 <= i < LeadingSpaces(cc, s) ==> s[i] == s[1..][i - 1];
    }
  }

  /** Number of whitespace characters at the back of `s`. */
  function TrailingSpaces(cc: CharClasses, s: string): (n: nat)
    ensures n <= |s|
    ensures n < |s| ==> s[|s| - 1 - n] !in cc.space
  {
    if s != [] && s[|s| - 1] in cc.space then 1 + TrailingSpaces(cc, s[..|s| - 1]) else 0
  }

  /** Everything TrailingSpaces counts is whitespace. */
  lemma {:induction false} TrailingSpacesAreSpaces(cc: CharClasses, s: string)
    ensures forall i :: |s| - TrailingSpaces(cc, s) <= i < |s| ==> s[i] in cc.space
  {
    if s != [] && s[|s| - 1] in cc.space {
      TrailingSpacesAreSpaces(cc, s[..|s| - 1]);
    }
  }

  /** The first position from `i` on that is not whitespace, or `|s|`. */
  function SkipSpaces(cc: CharClasses, s: string, i: nat): (j: nat)
    requires i <= |s|
    ensures i <= j <= |s|
    ensures j < |s| ==> s[j] !in cc.space
    decreases |s| - i
  {
    if i < |s| && s[i] in cc.space then SkipSpaces(cc, s, i + 1) else i
  }

  /** Everything SkipSpaces passes over is whitespace. */
  lemma {:induction false} SkipSpacesRun(cc: CharClasses, s: string, i: nat)
    requires i <= |s|
    ensures forall m :: i <= m < SkipSpaces(cc, s, i) ==> s[m] in cc.space
    decreases |s| - i
  {
    if i < |s| && s[i] in cc.space {
      SkipSpacesRun(cc, s, i + 1);
    }
  }

  /** Python's `s.lstrip()`. */
  function TrimStart(cc: CharClasses, s: string): string
  {
    if s != [] && s[0] in cc.space then TrimStart(cc, s[1..]) else s
  }

  /** Python's `s.rstrip()`. */
  function TrimEnd(cc: CharClasses, s: string): string
  {
    if s != [] && s[|s| - 1] in cc.space then TrimEnd(cc, s[..|s| - 1]) else s
  }

  /** Python's `s.strip()` with no argument: whitespace is removed from
      both ends. */
  function Strip(cc: CharClasses, s: string): string
  {
    TrimEnd(cc, TrimStart(cc, s))
  }

  lemma {:induction false} TrimStartIsSlice(cc: CharClasses, s: string)
    ensures TrimStart(cc, s) == s[LeadingSpaces(cc, s)..]
  {
    if s != [] && s[0] in cc.space {
      TrimStartIsSlice(cc, s[1..]);
      assert s[1..][LeadingSpaces(cc, s[1..])..] == s[1 + LeadingSpaces(cc, s[1..])..];
    }
  }

  lemma {:induction false} TrimEndIsSlice(cc: CharClasses, s: string)
    ensures TrimEnd(cc, s) == s[..|s| - TrailingSpaces(cc, s)]
  {
    if s != [] && s[|s| - 1] in cc.space {
      TrimEndIsSlice(cc, s[..|s| - 1]);
      assert s[..|s| - 1][..|s| - 1 - TrailingSpaces(cc, s[..|s| - 1])] == s[..|s| - 1 - TrailingSpaces(cc, s[..|s| - 1])];
    }
  }

  /** Where `s.strip()` starts and ends in `s`. */
  function StripBounds(cc: CharClasses, s: string): (ab: (nat, nat))
    ensures ab.0 <= ab.1 <= |s|
  {
    var a := LeadingSpaces(cc, s);
    (a, |s| - TrailingSpaces(cc, s[a..]))
  }

  /** `s.strip()` is the slice of `s` between its StripBounds: everything
      before and after it is whitespace and it neither starts nor ends with
      whitespace. */
  lemma StripIsSlice(cc: CharClasses, s: string)
    ensures var ab := StripBounds(cc, s);
      && Strip(cc, s) == s[ab.0..ab.1]
      && (forall i :: 0 <= i < ab.0 ==> s[i] in cc.space)
      && (forall i :: ab.1 <= i < |s| ==> s[i] in cc.space)
      && (ab.0 < ab.1 ==> s[ab.0] !in cc.space && s[ab.1 - 1] !in cc.space)
  {
    LeadingSpacesAreSpaces(cc, s);
    StripSliceOf(cc, s);
    TrailingOfRest(cc, s, LeadingSpaces(cc, s));
  }

  lemma StripSliceOf(cc: CharClasses, s: string)
    ensures var ab := StripBounds(cc, s); Strip(cc, s) == s[ab.0..ab.1]
  {
    var a := LeadingSpaces(cc, s);
    TrimStartIsSlice(cc, s);
    TrimEndIsSlice(cc, s[a..]);
    var b := TrailingSpaces(cc, s[a..]);
    assert s[a..][..|s| - a - b] == s[a..|s| - b];
  }

  /** The trailing whitespace of `s[a..]`, seen as positions of `s`. */
  lemma TrailingOfRest(cc: CharClasses, s: string, a: nat)
    requires a <= |s|
    ensures var b := TrailingSpaces(cc, s[a..]);
      && (forall i :: |s| - b <= i < |s| ==> s[i] in cc.space)
      && (a < |s| - b ==> s[|s| - b - 1] !in cc.space)
  {
    var rest := s[a..];
    TrailingSpacesAreSpaces(cc, rest);
    var b := TrailingSpaces(cc, rest);
    forall i | |s| - b <= i < |s| ensures s[i] in cc.space {
      assert s[i] == rest[i - a];
    }
    if a < |s| - b {
      assert s[|s| - b - 1] == rest[|s| - a - 1 - b];
    }
  }

  /** What `strip()` promises: only characters of the input remain, the
      result is empty exactly for blank input, it neither starts nor ends
      with whitespace, and stripping again changes nothing. */
  lemma StripSpec(cc: CharClasses, s: string)
    ensures var r := Strip(cc, s);
      && |r| <= |s|
      && (forall c :: c in r ==> c in s)
      && (r == [] <==> Blank(cc, s))
      && (r != [] ==> r[0] !in cc.space && r[|r| - 1] !in cc.space)
      && Strip(cc, r) == r
  {
    StripKeeps(cc, s);
    StripEmpty(cc, s);
    StripIdempotent(cc, s);
  }

  lemma StripKeeps(cc: CharClasses, s: string)
    ensures |Strip(cc, s)| <= |s| && forall c :: c in Strip(cc, s) ==> c in s
  {
    StripIsSlice(cc, s);
    var ab := StripBounds(cc, s);
    assert forall c :: c in s[ab.0..ab.1] ==> c in s;
  }

  lemma StripEmpty(cc: CharClasses, s: string)
    ensures Strip(cc, s) == [] <==> Blank(cc, s)
  {
    StripIsSlice(cc, s);
    var ab := StripBounds(cc, s);
    if ab.0 == ab.1 {
      forall c | c in s ensures c in cc.space {
        var i :| 0 <= i < |s| && s[i] == c;
      }
    } else {
      assert s[ab.0] in s;
    }
  }

  lemma StripIdempotent(cc: CharClasses, s: string)
    ensures var r := Strip(cc, s);
      && (r != [] ==> r[0] !in cc.space && r[|r| - 1] !in cc.space)
      && Strip(cc, r) == r
  {
    StripIsSlice(cc, s);
    var r := Strip(cc, s);
    StripIsSlice(cc, r);
  }

  /** `s[lo:hi].strip()` as a slice of `s`. */
  lemma StripOfSlice(cc: CharClasses, s: string, lo: nat, hi: nat)
    requires lo <= hi <= |s|
    ensures var ab := StripBounds(cc, s[lo..hi]);
      lo + ab.1 <= hi && Strip(cc, s[lo..hi]) == s[lo + ab.0..lo + ab.1]
  {
    StripIsSlice(cc, s[lo..hi]);
    var ab := StripBounds(cc, s[lo..hi]);
    SliceOfSlice(s, lo, hi, ab.0, ab.1);
  }

  lemma SliceOfSlice<T>(s: seq<T>, lo: nat, hi: nat, a: nat, b: nat)
    requires lo <= hi <= |s| && a <= b <= hi - lo
    ensures s[lo..hi][a..b] == s[lo + a..lo + b]
  {
    forall k | 0 <= k < b - a
      ensures s[lo..hi][a..b][k] == s[lo + a..lo + b][k]
    {
      assert s[lo..hi][a..b][k] == s[lo..hi][a + k];
    }
  }

  /** `needle` occurs in `hay` as a contiguous substring (Python: `needle in hay`). */
  predicate Contains(hay: string, needle: string)
  {
    StartsWith(hay, needle) || (hay != [] && Contains(hay[1..], needle))
  }

  /** `s` starts with `prefix` (Python: `s.startswith(prefix)`). */
  predicate StartsWith(s: string, prefix: string)
  {
    |prefix| <= |s| && s[..|prefix|] == prefix
  }

  /** Python's `sep.join(parts)`. */
  function Join(sep: string, parts: seq<string>): (r: string)
    ensures parts == [] ==> r == ""
    ensures |parts| == 1 ==> r == parts[0]
  {
    if |parts| == 0 then ""
    else if |parts| == 1 then parts[0]
    else parts[0] + sep + Join(sep, parts[1..])
  }

  lemma {:induction false} JoinSnoc(sep: string, parts: seq<string>, p: string)
    ensures Join(sep, parts + [p]) == if parts == [] then p else Join(sep, parts) + sep + p
  {
    if |parts| >= 2 {
      assert (parts + [p])[1..] == parts[1..] + [p];
      JoinSnoc(sep, parts[1..], p);
    } else if |parts| == 1 {
      assert parts + [p] == [parts[0], p];
    }
  }

  function DigitChar(d: nat): (c: char)
    requires d < 10
    ensures '0' <= c <= '9' && c as int - '0' as int == d
  {
    ('0' as int + d) as char
  }

  predicate AllDigits(s: string)
  {
    forall i :: 0 <= i < |s| ==> '0' <= s[i] <= '9'
  }

  /** Decimal rendering of a natural number, as Python's `str(n)` / an f-string gives it. */
  function NatToString(n: nat): (s: string)
    ensures |s| >= 1 && AllDigits(s)
  {
    if n < 10 then [DigitChar(n)] else NatToString(n / 10) + [DigitChar(n % 10)]
  }

  /** A run of digits followed by `]` is read back unambiguously. */
  lemma DigitsThenBracket(a: string, u: string, b: string, v: string)
    requires AllDigits(a) && AllDigits(b) && a + "]" + u == b + "]" + v
    ensures a == b && u == v
  {
    var x, y := a + "]" + u, b + "]" + v;
    assert x[|a|] == ']' && y[|b|] == ']';
    assert |a| == |b|;
    assert a == x[..|a|] && b == y[..|b|];
    assert u == x[|a| + 1..] && v == y[|b| + 1..];
  }

  /** A number between a fixed prefix and `]` is read back
      unambiguously. */
  lemma NumberedDistinct(pre: string, n: nat, u: string, m: nat, v: string)
    requires pre + NatToString(n) + "]" + u == pre + NatToString(m) + "]" + v
    ensures n == m && u == v
  {
    var x, y := NatToString(n) + "]" + u, NatToString(m) + "]" + v;
    assert x == y by {
      assert pre + NatToString(n) + "]" + u == pre + x;
      assert pre + NatToString(m) + "]" + v == pre + y;
      assert x == (pre + x)[|pre|..] && y == (pre + y)[|pre|..];
    }
    DigitsThenBracket(NatToString(n), u, NatToString(m), v);
    NatToStringInjective(n, m);
  }

  /** The value of a string of decimal digits: the inverse of NatToString. */
  function DigitsValue(s: string): nat
    requires AllDigits(s)
  {
    if s == [] then 0
    else
      DigitsValue(s[..|s| - 1]) * 10 + (s[|s| - 1] as int - '0' as int)
  }

  lemma {:induction false} NatToStringRoundTrip(n: nat)
    ensures DigitsValue(NatToString(n)) == n
  {
    if n >= 10 {
      var s := NatToString(n);
      assert s[..|s| - 1] == NatToString(n / 10);
      NatToStringRoundTrip(n / 10);
    }
  }

  lemma NatToStringInjective(a: nat, b: nat)
    ensures NatToString(a) == NatToString(b) ==> a == b
  {
    NatToStringRoundTrip(a);
    NatToStringRoundTrip(b);
  }

  /** ASCII lower-casing of one character. For the suffix comparisons in
      this model (against ".pdf", ".docx", ".doc") it agrees with Python's
      `str.lower()`: no other character lowers to one of those letters. */
  function LowerChar(c: char): char
  {
    if 'A' <= c <= 'Z' then (c as int + 32) as char else c
  }

  function Lower(s: string): (r: string)
    ensures |r| == |s| && forall i :: 0 <= i < |s| ==> r[i] == LowerChar(s[i])
  {
    seq(|s|, i requires 0 <= i < |s| => LowerChar(s[i]))
  }

  /** Index of the last occurrence of `c` in `s`, if any (Python: `s.rfind(c)`). */
  function LastIndexOf(s: string, c: char): (r: Option<nat>)
    ensures r.Some? ==> r.value < |s| && s[r.value] == c && c !in s[r.value + 1..]
    ensures r.None? ==> c !in s
  {
    if s == [] then None
    else if s[|s| - 1] == c then Some(|s| - 1)
    else
      var r := LastIndexOf(s[..|s| - 1], c);
      assert s == s[..|s| - 1] + [s[|s| - 1]];
      r
  }

  /** `PurePath.suffix` of a final path component: from the last dot on,
      unless that dot is the first or the last character. */
  function Suffix(name: string): (r: string)
    ensures r == [] || (r[0] == '.' && '.' !in r[1..] && |r| >= 2 && |r| < |name|)
    ensures r != [] ==> r == name[|name| - |r|..]
    ensures r != [] <==> (LastIndexOf(name, '.').Some? && 0 < LastIndexOf(name, '.').value < |name| - 1)
  {
    match LastIndexOf(name, '.')
    case Some(i) => if 0 < i < |name| - 1 then name[i..] else ""
    case None => ""
  }
}
