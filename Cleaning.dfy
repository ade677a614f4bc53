/** The regular-expression substitutions out of which the four `clean_text`
    variants are built, each as a function over strings with the
    character classes `\w`, `\s`, `\d` taken as parameters. */
module Cleaning {
  import opened Text

  /** The characters of `s` that are not whitespace, in order. */
  function NonSpace(cc: CharClasses, s: string): string
  {
    if s == [] then []
    else if (s[0] in cc.space) then NonSpace(cc, s[1..])
    else [s[0]] + NonSpace(cc, s[1..])
  }

  lemma {:induction false} NonSpaceOfBlank(cc: CharClasses, s: string, n: nat)
    requires n <= |s| && forall i :: 0 <= i < n ==> (s[i] in cc.space)
    ensures NonSpace(cc, s) == NonSpace(cc, s[n..])
  {
    if n > 0 {
      NonSpaceOfBlank(cc, s[1..], n - 1);
      assert s[1..][n - 1..] == s[n..];
    }
  }

  /** No two adjacent characters are both `c`. */
  predicate NoDouble(s: string, c: char)
  {
    forall i :: 0 <= i < |s| - 1 ==> !(s[i] == c && s[i + 1] == c)
  }

  /** `re.sub(r'\s+', ' ', s)`: every maximal run of whitespace becomes one
      space. */
  function CollapseSpaces(cc: CharClasses, s: string): (r: string)
    ensures s == [] <==> r == []
    ensures s != [] ==> (r[0] == ' ' <==> (s[0] in cc.space || s[0] == ' '))
    decreases |s|
  {
    if s == [] then []
    else if s[0] in cc.space then [' '] + CollapseSpaces(cc, s[LeadingSpaces(cc, s)..])
    else [s[0]] + CollapseSpaces(cc, s[1..])
  }

  /** What the collapse leaves: the non-whitespace characters in order, no
      whitespace but `' '`, and no two spaces in a row. */
  lemma {:induction false} CollapseSpec(cc: CharClasses, s: string)
    requires WellFormed(cc)
    ensures var r := CollapseSpaces(cc, s);
      && NonSpace(cc, r) == NonSpace(cc, s)
      && (forall c :: c in r ==> ((c in cc.space) <==> c == ' '))
      && (forall c :: c in r && c != ' ' ==> c in s)
      && NoDouble(r, ' ')
    decreases |s|
  {
    if s == [] {
    } else if s[0] in cc.space {
      var n := LeadingSpaces(cc, s);
      var rest := CollapseSpaces(cc, s[n..]);
      CollapseSpec(cc, s[n..]);
      LeadingSpacesAreSpaces(cc, s);
      NonSpaceOfBlank(cc, s, n);
      assert forall c :: c in s[n..] ==> c in s;
      NoDoubleCons(' ', rest, ' ');
    } else {
      var rest := CollapseSpaces(cc, s[1..]);
      CollapseSpec(cc, s[1..]);
      assert forall c :: c in s[1..] ==> c in s;
      NoDoubleCons(s[0], rest, ' ');
    }
  }

  /** NoDouble of a string with one character in front. */
  lemma NoDoubleCons(c: char, rest: string, x: char)
    requires NoDouble(rest, x) && (c == x && rest != [] ==> rest[0] != x)
    ensures NoDouble([c] + rest, x)
  {
    var t := [c] + rest;
    forall i | 1 <= i < |t| - 1 ensures !(t[i] == x && t[i + 1] == x) {
      assert t[i] == rest[i - 1] && t[i + 1] == rest[i];
    }
  }

  /** Membership in the character class `[\w\s<punct>\n]` that the
      allow-list substitution keeps. */
  predicate Allowed(cc: CharClasses, punct: string, c: char)
  {
    (c in cc.word) || (c in cc.space) || c in punct || c == '\n'
  }

  /** `re.sub(r'[^\w\s<punct>\n]', '', s)`: delete every character outside
      the allow-list. */
  function KeepAllowed(cc: CharClasses, punct: string, s: string): (r: string)
    ensures |r| <= |s|
    ensures forall c :: c in r <==> c in s && Allowed(cc, punct, c)
  {
    if s == [] then []
    else
      var rest := KeepAllowed(cc, punct, s[1..]);
      assert forall c :: c in s <==> c == s[0] || c in s[1..];
      if Allowed(cc, punct, s[0]) then [s[0]] + rest else rest
  }

  /** A string of allowed characters only is left as it is. */
  lemma {:induction false} KeepAllowedKeepsAllowed(cc: CharClasses, punct: string, s: string)
    requires forall c :: c in s ==> Allowed(cc, punct, c)
    ensures KeepAllowed(cc, punct, s) == s
  {
    if s != [] {
      assert s[0] in s;
      assert forall c :: c in s[1..] ==> c in s;
      KeepAllowedKeepsAllowed(cc, punct, s[1..]);
    }
  }

  /** NonSpace distributes over concatenation. */
  lemma {:induction false} NonSpaceAppend(cc: CharClasses, u: string, v: string)
    ensures NonSpace(cc, u + v) == NonSpace(cc, u) + NonSpace(cc, v)
  {
    if u == [] {
      assert u + v == v;
    } else {
      assert (u + v)[0] == u[0] && (u + v)[1..] == u[1..] + v;
      NonSpaceAppend(cc, u[1..], v);
    }
  }

  lemma {:induction false} NonSpaceBlank(cc: CharClasses, s: string)
    requires Blank(cc, s)
    ensures NonSpace(cc, s) == []
  {
    if s != [] {
      assert s[0] in s;
      assert forall c :: c in s[1..] ==> c in s;
      NonSpaceBlank(cc, s[1..]);
    }
  }

  /** `strip()` removes whitespace only. */
  lemma NonSpaceStrip(cc: CharClasses, s: string)
    ensures NonSpace(cc, Strip(cc, s)) == NonSpace(cc, s)
  {
    StripIsSlice(cc, s);
    var ab := StripBounds(cc, s);
    assert s == s[..ab.0] + s[ab.0..ab.1] + s[ab.1..];
    NonSpaceAppend(cc, s[..ab.0] + s[ab.0..ab.1], s[ab.1..]);
    NonSpaceAppend(cc, s[..ab.0], s[ab.0..ab.1]);
    assert Blank(cc, s[..ab.0]) by {
      forall c | c in s[..ab.0] ensures c in cc.space {
        var i :| 0 <= i < ab.0 && s[..ab.0][i] == c;
      }
    }
    assert Blank(cc, s[ab.1..]) by {
      forall c | c in s[ab.1..] ensures c in cc.space {
        var i :| 0 <= i < |s| - ab.1 && s[ab.1..][i] == c;
        assert s[ab.1 + i] == c;
      }
    }
    NonSpaceBlank(cc, s[..ab.0]);
    NonSpaceBlank(cc, s[ab.1..]);
  }

  /** The allow-list keeps every whitespace character, so deleting the
      disallowed characters and dropping whitespace commute. */
  lemma {:induction false} NonSpaceKeepAllowed(cc: CharClasses, punct: string, s: string)
    ensures NonSpace(cc, KeepAllowed(cc, punct, s)) == KeepAllowed(cc, punct, NonSpace(cc, s))
  {
    if s != [] {
      NonSpaceKeepAllowed(cc, punct, s[1..]);
    }
  }

  /** A string whose only whitespace is single spaces is its own collapse,
      so collapsing twice changes nothing more than collapsing once. */
  lemma {:induction false} CollapseKeeps(cc: CharClasses, s: string)
    requires WellFormed(cc) && NoDouble(s, ' ')
    requires forall c :: c in s && c in cc.space ==> c == ' '
    ensures CollapseSpaces(cc, s) == s
  {
    if s != [] {
      var tail := s[1..];
      assert forall c :: c in tail ==> c in s;
      NoDoubleTail(s, ' ');
      CollapseKeeps(cc, tail);
      assert s == [s[0]] + tail;
      if s[0] in cc.space {
        assert s[0] in s;
        if tail != [] {
          assert tail[0] == s[1] && s[1] in s;
        }
        assert LeadingSpaces(cc, tail) == 0;
        assert LeadingSpaces(cc, s) == 1;
        assert CollapseSpaces(cc, s) == [' '] + CollapseSpaces(cc, tail);
      } else {
        assert CollapseSpaces(cc, s) == [s[0]] + CollapseSpaces(cc, tail);
      }
    }
  }

  /** NoDouble of a string holds of its tail. */
  lemma NoDoubleTail(s: string, x: char)
    requires s != [] && NoDouble(s, x)
    ensures NoDouble(s[1..], x)
  {
    var t := s[1..];
    forall i | 0 <= i < |t| - 1 ensures !(t[i] == x && t[i + 1] == x) {
      assert t[i] == s[i + 1] && t[i + 1] == s[i + 2];
    }
  }

  lemma CollapseIdempotent(cc: CharClasses, s: string)
    requires WellFormed(cc)
    ensures CollapseSpaces(cc, CollapseSpaces(cc, s)) == CollapseSpaces(cc, s)
  {
    CollapseSpec(cc, s);
    CollapseKeeps(cc, CollapseSpaces(cc, s));
  }

  /** Whitespace then a non-whitespace character collapses to one space. */
  lemma {:induction false} LeadingOfBlankPrefix(cc: CharClasses, p: string, rest: string)
    requires Blank(cc, p) && (rest == [] || rest[0] !in cc.space)
    ensures LeadingSpaces(cc, p + rest) == |p|
  {
    if p == [] {
      assert p + rest == rest;
    } else {
      assert p[0] in p;
      assert forall c :: c in p[1..] ==> c in p;
      assert (p + rest)[0] == p[0] && (p + rest)[1..] == p[1..] + rest;
      LeadingOfBlankPrefix(cc, p[1..], rest);
    }
  }

  lemma {:induction false} TrailingOfBlankSuffix(cc: CharClasses, u: string, q: string)
    requires Blank(cc, q) && u != [] && u[|u| - 1] !in cc.space
    ensures TrailingSpaces(cc, u + q) == |q|
  {
    if q == [] {
      assert u + q == u;
    } else {
      assert q[|q| - 1] in q;
      assert forall c :: c in q[..|q| - 1] ==> c in q;
      var t := u + q;
      assert t[|t| - 1] == q[|q| - 1] && t[..|t| - 1] == u + q[..|q| - 1];
      TrailingOfBlankSuffix(cc, u, q[..|q| - 1]);
    }
  }

  lemma CollapseBlankThen(cc: CharClasses, p: string, rest: string)
    requires WellFormed(cc) && Blank(cc, p) && p != [] && (rest == [] || rest[0] !in cc.space)
    ensures CollapseSpaces(cc, p + rest) == " " + CollapseSpaces(cc, rest)
  {
    assert p[0] in p;
    LeadingOfBlankPrefix(cc, p, rest);
    assert (p + rest)[|p|..] == rest;
  }

  lemma {:induction false} CollapseWordThen(cc: CharClasses, d: string, q: string)
    requires WellFormed(cc) && forall c :: c in d ==> c !in cc.space
    ensures CollapseSpaces(cc, d + q) == d + CollapseSpaces(cc, q)
  {
    if d == [] {
      assert d + q == q;
    } else {
      assert d[0] in d;
      assert forall c :: c in d[1..] ==> c in d;
      assert (d + q)[0] == d[0] && (d + q)[1..] == d[1..] + q;
      CollapseWordThen(cc, d[1..], q);
    }
  }

  /** The whole string has the shape `\s*\d+\s*`. */
  predicate DigitLine(cc: CharClasses, s: string)
  {
    var a := LeadingSpaces(cc, s);
    var b := TrailingSpaces(cc, s[a..]);
    a < |s| - b && forall i :: a <= i < |s| - b ==> (s[i] in cc.digit)
  }

  /** Whitespace, one or more digits, whitespace: a digit line. */
  lemma DigitLineOfParts(cc: CharClasses, p: string, d: string, q: string)
    requires WellFormed(cc) && Blank(cc, p) && Blank(cc, q)
    requires d != [] && forall c :: c in d ==> c in cc.digit
    ensures DigitLine(cc, p + d + q)
  {
    var s := p + d + q;
    assert d[0] in d && d[|d| - 1] in d;
    LeadingOfBlankPrefix(cc, p, d + q);
    assert p + (d + q) == s && s[|p|..] == d + q;
    TrailingOfBlankSuffix(cc, d, q);
    forall i | |p| <= i < |s| - |q| ensures s[i] in cc.digit {
      assert s[i] == d[i - |p|];
    }
  }

  /** Collapsing whitespace keeps a digit line a digit line. */
  lemma CollapseDigitLine(cc: CharClasses, s: string)
    requires WellFormed(cc) && DigitLine(cc, s)
    ensures DigitLine(cc, CollapseSpaces(cc, s))
  {
    var p, d, q := DigitLineSplit(cc, s);
    CollapseParts(cc, p, d, q);
    DigitLineOfParts(cc, if p == [] then "" else " ", d, if q == [] then "" else " ");
  }

  /** The three parts of a digit line. */
  lemma DigitLineSplit(cc: CharClasses, s: string) returns (p: string, d: string, q: string)
    requires DigitLine(cc, s)
    ensures s == p + d + q && Blank(cc, p) && Blank(cc, q)
    ensures d != [] && forall c :: c in d ==> c in cc.digit
  {
    var a := LeadingSpaces(cc, s);
    var b := TrailingSpaces(cc, s[a..]);
    assert forall i :: 0 <= i < a ==> s[i] in cc.space by {
      LeadingSpacesAreSpaces(cc, s);
    }
    assert forall i :: |s| - b <= i < |s| ==> s[i] in cc.space by {
      TrailingSpacesAreSpaces(cc, s[a..]);
      assert forall i :: |s| - b <= i < |s| ==> s[i] == s[a..][i - a];
    }
    SliceIn(s, 0, a, cc.space);
    SliceIn(s, |s| - b, |s|, cc.space);
    SliceIn(s, a, |s| - b, cc.digit);
    p, d, q := s[..a], s[a..|s| - b], s[|s| - b..];
    assert s == p + d + q;
  }

  /** A slice whose characters all lie in a class. */
  lemma SliceIn(s: string, lo: nat, hi: nat, cls: set<char>)
    requires lo <= hi <= |s| && forall i :: lo <= i < hi ==> s[i] in cls
    ensures forall c :: c in s[lo..hi] ==> c in cls
  {
    forall c | c in s[lo..hi] ensures c in cls {
      var i :| 0 <= i < hi - lo && s[lo..hi][i] == c;
      assert c == s[lo + i];
    }
  }

  /** How whitespace, digits, whitespace collapse. */
  lemma CollapseParts(cc: CharClasses, p: string, d: string, q: string)
    requires WellFormed(cc) && Blank(cc, p) && Blank(cc, q)
    requires d != [] && forall c :: c in d ==> c in cc.digit
    ensures CollapseSpaces(cc, p + d + q) == (if p == [] then "" else " ") + d + (if q == [] then "" else " ")
  {
    var q' := if q == [] then "" else " ";
    CollapseWordThen(cc, d, q);
    if q != [] {
      CollapseBlankThen(cc, q, []);
      assert q + [] == q;
    } else {
      assert d + q == d;
    }
    assert CollapseSpaces(cc, d + q) == d + q';
    if p != [] {
      assert (d + q)[0] == d[0] && d[0] in d;
      CollapseBlankThen(cc, p, d + q);
      assert p + (d + q) == p + d + q;
    } else {
      assert p + d + q == d + q && "" + d + q' == d + q';
    }
  }

  /** `re.sub(r'^\s*\d+\s*$', '', s, flags=re.MULTILINE)` on a string with
      no newline: there `^` and `$` match only at the two ends, so the
      pattern matches the whole string or nothing. The pipelines only call
      it after CollapseSpaces has removed every newline. */
  function DropDigitLine(cc: CharClasses, s: string): (r: string)
    requires '\n' !in s
    ensures DigitLine(cc, s) ==> r == ""
    ensures !DigitLine(cc, s) ==> r == s
  {
    if DigitLine(cc, s) then "" else s
  }

  /** Where the match of `\s*\|\s*\|\s*` that starts at position `i` of
      `s` ends, if there is one. The `\s*` parts are greedy; since `|` is
      not whitespace, backtracking never yields another match. */
  function SeparatorAt(cc: CharClasses, s: string, i: nat): (r: Option<nat>)
    requires i <= |s|
    ensures r.Some? ==> i + 2 <= r.value <= |s|
  {
    var a := SkipSpaces(cc, s, i);
    if a < |s| && s[a] == '|' then
      var b := SkipSpaces(cc, s, a + 1);
      if b < |s| && s[b] == '|' then Some(SkipSpaces(cc, s, b + 1)) else None
    else None
  }

  /** When the match is found and when it is not. */
  lemma SeparatorAtCases(cc: CharClasses, s: string, i: nat)
    requires WellFormed(cc) && i < |s|
    ensures i + 1 < |s| && s[i] == '|' && s[i + 1] == '|' ==> SeparatorAt(cc, s, i).Some?
    ensures s[i] !in cc.space && s[i] != '|' ==> SeparatorAt(cc, s, i).None?
  {
  }

  /** The characters of `s` from position `i` on that are neither
      whitespace nor `|`, in order. */
  function ContentFrom(cc: CharClasses, s: string, i: nat): string
    requires i <= |s|
    decreases |s| - i
  {
    if i == |s| then []
    else if s[i] in cc.space || s[i] == '|' then ContentFrom(cc, s, i + 1)
    else [s[i]] + ContentFrom(cc, s, i + 1)
  }

  /** The characters of `s` that are neither whitespace nor `|`, in order. */
  function Content(cc: CharClasses, s: string): string
  {
    ContentFrom(cc, s, 0)
  }

  /** Whitespace does not contribute to the content. */
  lemma {:induction false} ContentSkipsSpaces(cc: CharClasses, s: string, i: nat)
    requires i <= |s|
    ensures ContentFrom(cc, s, i) == ContentFrom(cc, s, SkipSpaces(cc, s, i))
    decreases |s| - i
  {
    if i < |s| && s[i] in cc.space {
      ContentSkipsSpaces(cc, s, i + 1);
    }
  }

  /** The three whitespace runs and two bars of a match. */
  lemma SeparatorAtParts(cc: CharClasses, s: string, i: nat, k: nat)
    requires i <= |s| && SeparatorAt(cc, s, i) == Some(k)
    ensures var a := SkipSpaces(cc, s, i);
      && a < |s| && s[a] == '|'
      && SkipSpaces(cc, s, a + 1) < |s| && s[SkipSpaces(cc, s, a + 1)] == '|'
      && k == SkipSpaces(cc, s, SkipSpaces(cc, s, a + 1) + 1)
  {
  }

  /** Content ignores whitespace. */
  lemma {:induction false} ContentOfNonSpace(cc: CharClasses, s: string)
    ensures Content(cc, s) == Content(cc, NonSpace(cc, s))
  {
    if s != [] {
      ContentSuffixStep(cc, s);
      ContentOfNonSpace(cc, s[1..]);
      if s[0] !in cc.space {
        ContentCons(cc, s[0], NonSpace(cc, s[1..]));
      }
    }
  }

  /** Nor does a separator that RewriteSeparators replaces. */
  lemma ContentOfMatch(cc: CharClasses, s: string, i: nat, k: nat)
    requires i <= |s| && SeparatorAt(cc, s, i) == Some(k)
    ensures ContentFrom(cc, s, i) == ContentFrom(cc, s, k)
  {
    SeparatorAtParts(cc, s, i, k);
    var a := SkipSpaces(cc, s, i);
    var b := SkipSpaces(cc, s, a + 1);
    ContentOfRuns(cc, s, i, a, b, k);
  }

  lemma ContentOfRuns(cc: CharClasses, s: string, i: nat, a: nat, b: nat, k: nat)
    requires i <= |s| && a == SkipSpaces(cc, s, i) && a < |s| && s[a] == '|'
    requires b == SkipSpaces(cc, s, a + 1) && b < |s| && s[b] == '|'
    requires k == SkipSpaces(cc, s, b + 1)
    ensures ContentFrom(cc, s, i) == ContentFrom(cc, s, k)
  {
    ContentSkipsSpacesThenBar(cc, s, i);
    ContentSkipsSpacesThenBar(cc, s, a + 1);
    ContentSkipsSpaces(cc, s, b + 1);
  }

  lemma ContentSkipsSpacesThenBar(cc: CharClasses, s: string, i: nat)
    requires i <= |s| && SkipSpaces(cc, s, i) < |s| && s[SkipSpaces(cc, s, i)] == '|'
    ensures ContentFrom(cc, s, i) == ContentFrom(cc, s, SkipSpaces(cc, s, i) + 1)
  {
    ContentSkipsSpaces(cc, s, i);
  }

  /** `re.sub(r'\s*\|\s*\|\s*', ' | ', s[i:])`: each leftmost,
      non-overlapping run of two bars with surrounding whitespace becomes
      `' | '`. Only whitespace and bars are touched, and afterwards no two
      bars are adjacent. */
  function RewriteFrom(cc: CharClasses, s: string, i: nat): (r: string)
    requires WellFormed(cc) && i <= |s|
    ensures Content(cc, r) == ContentFrom(cc, s, i)
    ensures forall c :: c in r ==> c in s[i..] || c == ' '
    ensures NoDouble(r, '|')
    ensures r == [] <==> i == |s|
    ensures i < |s| && SeparatorAt(cc, s, i).None? ==> r[0] == s[i]
    ensures i < |s| && SeparatorAt(cc, s, i).Some? ==> r[0] == ' '
    decreases |s| - i
  {
    if i == |s| then []
    else match SeparatorAt(cc, s, i)
      case Some(k) =>
        var rest := RewriteFrom(cc, s, k);
        ContentOfMatch(cc, s, i, k);
        assert forall c :: c in s[k..] ==> c in s[i..];
        PrependSeparator(cc, rest);
        " | " + rest
      case None =>
        var rest := RewriteFrom(cc, s, i + 1);
        assert forall c :: c in s[i + 1..] ==> c in s[i..];
        assert s[i] in s[i..];
        SeparatorAtCases(cc, s, i);
        PrependChar(cc, s[i], rest);
        [s[i]] + rest
  }

  /** `re.sub(r'\s*\|\s*\|\s*', ' | ', s)`. */
  function RewriteSeparators(cc: CharClasses, s: string): (r: string)
    requires WellFormed(cc)
  {
    RewriteFrom(cc, s, 0)
  }

  /** A slice of a string without two adjacent `c` has none either. */
  lemma NoDoubleSlice(s: string, lo: nat, hi: nat, c: char)
    requires lo <= hi <= |s| && NoDouble(s, c)
    ensures NoDouble(s[lo..hi], c)
  {
    forall i | 0 <= i < hi - lo - 1 ensures !(s[lo..hi][i] == c && s[lo..hi][i + 1] == c) {
      assert s[lo..hi][i] == s[lo + i] && s[lo..hi][i + 1] == s[lo + i + 1];
    }
  }

  /** Content of a string that starts with one character. */
  lemma ContentCons(cc: CharClasses, c: char, rest: string)
    ensures Content(cc, [c] + rest) == (if c in cc.space || c == '|' then [] else [c]) + Content(cc, rest)
  {
    var t := [c] + rest;
    ContentShift(cc, t, 1);
  }

  /** ContentFrom a position of `t` is the content of `t`'s suffix there. */
  lemma {:induction false} ContentShift(cc: CharClasses, t: string, n: nat)
    requires n <= |t|
    ensures ContentFrom(cc, t, n) == Content(cc, t[n..])
    decreases |t| - n
  {
    if n < |t| {
      ContentShift(cc, t, n + 1);
      ContentSuffixStep(cc, t[n..]);
      assert t[n..][1..] == t[n + 1..];
    }
  }

  lemma ContentSuffixStep(cc: CharClasses, u: string)
    requires u != []
    ensures Content(cc, u) == (if u[0] in cc.space || u[0] == '|' then [] else [u[0]]) + Content(cc, u[1..])
  {
    ContentFromShift(cc, u, 1);
  }

  /** ContentFrom depends only on the suffix it reads. */
  lemma {:induction false} ContentFromShift(cc: CharClasses, u: string, n: nat)
    requires 1 <= n <= |u|
    ensures ContentFrom(cc, u, n) == ContentFrom(cc, u[1..], n - 1)
    decreases |u| - n
  {
    if n < |u| {
      assert u[n] == u[1..][n - 1];
      ContentFromShift(cc, u, n + 1);
    }
  }

  /** Content and NoDouble of `" | " + rest`. */
  lemma PrependSeparator(cc: CharClasses, rest: string)
    requires WellFormed(cc) && NoDouble(rest, '|')
    ensures Content(cc, " | " + rest) == Content(cc, rest)
    ensures NoDouble(" | " + rest, '|')
  {
    var t := " | " + rest;
    assert t == [' '] + ([ '|'] + ([' '] + rest));
    ContentCons(cc, ' ', [ '|'] + ([' '] + rest));
    ContentCons(cc, '|', [' '] + rest);
    ContentCons(cc, ' ', rest);
    forall i | 3 <= i < |t| - 1 ensures !(t[i] == '|' && t[i + 1] == '|') {
      assert t[i] == rest[i - 3] && t[i + 1] == rest[i - 2];
    }
  }

  /** Content and NoDouble of `[c] + rest`. */
  lemma PrependChar(cc: CharClasses, c: char, rest: string)
    requires NoDouble(rest, '|')
    requires c == '|' && rest != [] ==> rest[0] != '|'
    ensures Content(cc, [c] + rest) == (if c in cc.space || c == '|' then [] else [c]) + Content(cc, rest)
    ensures NoDouble([c] + rest, '|')
  {
    var t := [c] + rest;
    ContentCons(cc, c, rest);
    forall i | 1 <= i < |t| - 1 ensures !(t[i] == '|' && t[i + 1] == '|') {
      assert t[i] == rest[i - 1] && t[i + 1] == rest[i];
    }
  }

  lemma {:induction false} RewriteWithoutBars(cc: CharClasses, s: string, i: nat)
    requires WellFormed(cc) && i <= |s| && '|' !in s[i..]
    ensures RewriteFrom(cc, s, i) == s[i..]
    decreases |s| - i
  {
    if i < |s| {
      var a := SkipSpaces(cc, s, i);
      assert a < |s| ==> s[a] in s[i..];
      assert SeparatorAt(cc, s, i).None?;
      assert forall c :: c in s[i + 1..] ==> c in s[i..];
      RewriteWithoutBars(cc, s, i + 1);
      assert s[i..] == [s[i]] + s[i + 1..];
    }
  }

  /** Python's `ord(c) >= 32 or c in '\n\t'`. */
  predicate NotControl(c: char)
  {
    c as int >= 32 || c == '\n' || c == '\t'
  }

  /** `''.join(c for c in s if ord(c) >= 32 or c in '\n\t')`. */
  function DropControl(s: string): (r: string)
    ensures |r| <= |s|
    ensures forall c :: c in r <==> c in s && NotControl(c)
  {
    if s == [] then []
    else
      var rest := DropControl(s[1..]);
      assert forall c :: c in s <==> c == s[0] || c in s[1..];
      if NotControl(s[0]) then [s[0]] + rest else rest
  }

  /** A string without control characters is left as it is. */
  lemma {:induction false} DropControlKeeps(s: string)
    requires forall c :: c in s ==> NotControl(c)
    ensures DropControl(s) == s
  {
    if s != [] {
      assert s[0] in s;
      assert forall c :: c in s[1..] ==> c in s;
      DropControlKeeps(s[1..]);
    }
  }

  /** What every cleaner promises of its output, for the punctuation set
      `punct` of its allow-list. */
  predicate CleanForm(cc: CharClasses, punct: string, r: string)
  {
    && (forall c :: c in r ==> (c in cc.word) || c == ' ' || c in punct)
    && (forall c :: c in r && (c in cc.space) ==> c == ' ')
    && '\n' !in r
    && (r != [] ==> !(r[0] in cc.space) && !(r[|r| - 1] in cc.space))
  }

  /** The characters every cleaner may keep before its final strip: word
      characters, the space and its punctuation, with `' '` as the only
      whitespace. */
  predicate Prepared(cc: CharClasses, punct: string, x: string)
  {
    && (forall c :: c in x ==> (c in cc.word) || c == ' ' || c in punct)
    && (forall c :: c in x && (c in cc.space) ==> c == ' ')
  }

  /** Collapsing whitespace and then applying the allow-list leaves a
      prepared string, and deletes from the non-whitespace characters
      exactly those outside the allow-list. */
  lemma CollapsedAllowed(cc: CharClasses, punct: string, s: string)
    requires WellFormed(cc)
    ensures var x := KeepAllowed(cc, punct, CollapseSpaces(cc, s));
      Prepared(cc, punct, x) && NonSpace(cc, x) == KeepAllowed(cc, punct, NonSpace(cc, s))
  {
    CollapseSpec(cc, s);
    NonSpaceKeepAllowed(cc, punct, CollapseSpaces(cc, s));
  }

  /** Stripping a prepared string gives a clean one. */
  lemma StripPrepared(cc: CharClasses, punct: string, x: string)
    requires WellFormed(cc) && Prepared(cc, punct, x)
    ensures CleanForm(cc, punct, Strip(cc, x))
  {
    StripSpec(cc, x);
  }

  /** A sub-sequence of characters of a prepared string is prepared. */
  lemma PreparedSubset(cc: CharClasses, punct: string, x: string, y: string)
    requires Prepared(cc, punct, x) && forall c :: c in y ==> c in x || c == ' '
    ensures Prepared(cc, punct, y)
  {
  }
}
