/**
 * Python string and list primitives used throughout the model: prefix and
 * suffix tests, `find`, `split`/`join`, `splitlines`, whitespace stripping,
 * slicing with negative indices, and decimal integer rendering and parsing.
 */
module Text {
  import opened Wrappers

  // ----- prefixes, suffixes, occurrences -----

  predicate StartsWith(s: string, p: string) { |p| <= |s| && s[..|p|] == p }

  predicate EndsWith(s: string, p: string) { |p| <= |s| && s[|s| - |p|..] == p }

  /** `p` occurs in `s` at index `i`. */
  predicate OccursAt(s: string, p: string, i: int)
  {
    0 <= i && i + |p| <= |s| && s[i..i + |p|] == p
  }

  /** Python's `s.find(p, i)`: the first occurrence at or after `i`, or -1. */
  function FindFrom(s: string, p: string, i: nat): (r: int)
    requires i <= |s|
    ensures r == -1 || (i <= r && OccursAt(s, p, r))
    decreases |s| - i
  {
    if OccursAt(s, p, i) then i
    else if i == |s| then -1
    else FindFrom(s, p, i + 1)
  }

  /** `find` reports the first occurrence, and -1 only when there is none. */
  lemma {:induction false} FindFromFirst(s: string, p: string, i: nat)
    requires i <= |s|
    ensures FindFrom(s, p, i) == -1 ==> forall j :: i <= j <= |s| ==> !OccursAt(s, p, j)
    ensures FindFrom(s, p, i) != -1 ==> forall j :: i <= j < FindFrom(s, p, i) ==> !OccursAt(s, p, j)
    decreases |s| - i
  {
    if !OccursAt(s, p, i) && i < |s| {
      FindFromFirst(s, p, i + 1);
    }
  }

  function Find(s: string, p: string): int { FindFrom(s, p, 0) }

  /** Python's `p in s`. */
  predicate Contains(s: string, p: string) { Find(s, p) != -1 }

  lemma ContainsIff(s: string, p: string)
    ensures Contains(s, p) <==> exists j :: OccursAt(s, p, j)
  {
    FindFromFirst(s, p, 0);
    if Contains(s, p) {
      assert OccursAt(s, p, Find(s, p));
    }
  }

  lemma ContainsPrefix(s: string, p: string)
    requires StartsWith(s, p)
    ensures Contains(s, p)
  {
    assert OccursAt(s, p, 0);
    ContainsIff(s, p);
  }

  /** A text starts with anything it was extended from. */
  lemma AppendPrefix(a: string, b: string)
    ensures StartsWith(a + b, a)
  {
    assert (a + b)[..|a|] == a;
  }

  /** A text ends with anything appended to it. */
  lemma AppendSuffix(a: string, b: string)
    ensures EndsWith(a + b, b)
  {
    assert (a + b)[|a + b| - |b|..] == b;
  }

  /** Appending three pieces one by one appends their concatenation. */
  lemma AppendThree(s: string, a: string, x: string, b: string)
    ensures s + a + x + b == s + (a + x + b)
  {
  }

  /** Appending nothing changes nothing. */
  lemma AppendNothing(s: string)
    ensures s + "" == s
  {
  }

  /** A piece of a concatenation occurs in it. */
  lemma ContainsMiddle(a: string, x: string, b: string)
    ensures Contains(a + x + b, x)
  {
    assert OccursAt(a + x + b, x, |a|);
    ContainsIff(a + x + b, x);
  }

  // ----- characters -----

  /** Python whitespace, restricted to the ASCII whitespace characters. */
  predicate IsSpace(c: char)
  {
    c == ' ' || c == '\t' || c == '\n' || c == '\r' || c == '\U{000B}' || c == '\U{000C}'
  }

  predicate IsLineBreak(c: char) { c == '\n' || c == '\r' }

  predicate IsDigit(c: char) { '0' <= c <= '9' }

  predicate AllDigits(s: string) { forall i :: 0 <= i < |s| ==> IsDigit(s[i]) }

  function LowerChar(c: char): char
  {
    if 'A' <= c <= 'Z' then (c as int + 32) as char else c
  }

  function UpperChar(c: char): char
  {
    if 'a' <= c <= 'z' then (c as int - 32) as char else c
  }

  /** Python's `str.lower()` on ASCII letters. */
  function Lower(s: string): (r: string)
    ensures |r| == |s|
    ensures forall i :: 0 <= i < |s| ==> r[i] == LowerChar(s[i])
  {
    if s == [] then [] else [LowerChar(s[0])] + Lower(s[1..])
  }

  /** Python's `str.upper()` on ASCII letters. */
  function Upper(s: string): (r: string)
    ensures |r| == |s|
    ensures forall i :: 0 <= i < |s| ==> r[i] == UpperChar(s[i])
  {
    if s == [] then [] else [UpperChar(s[0])] + Upper(s[1..])
  }

  // ----- stripping -----

  /** Python's `s.lstrip(chars)`. */
  function LStripChars(s: string, cs: set<char>): (r: string)
    ensures |r| <= |s|
  {
    if s != [] && s[0] in cs then LStripChars(s[1..], cs) else s
  }

  /** `lstrip` removes a prefix made of stripped characters, and leaves none in front. */
  lemma {:induction false} LStripCharsSpec(s: string, cs: set<char>)
    ensures LStripChars(s, cs) == s[|s| - |LStripChars(s, cs)|..]
    ensures LStripChars(s, cs) == [] || LStripChars(s, cs)[0] !in cs
    ensures forall i :: 0 <= i < |s| - |LStripChars(s, cs)| ==> s[i] in cs
  {
    if s != [] && s[0] in cs {
      LStripCharsSpec(s[1..], cs);
    }
  }

  /** `lstrip` takes off exactly a leading run of stripped characters that the rest does not continue. */
  lemma {:induction false} LStripPrefix(lead: string, rest: string, cs: set<char>)
    requires forall i :: 0 <= i < |lead| ==> lead[i] in cs
    requires rest == [] || rest[0] !in cs
    ensures LStripChars(lead + rest, cs) == rest
    decreases |lead|
  {
    if lead == [] {
      assert lead + rest == rest;
    } else {
      assert (lead + rest)[1..] == lead[1..] + rest;
      LStripPrefix(lead[1..], rest, cs);
    }
  }

  /** Python's `s.rstrip(chars)`. */
  function RStripChars(s: string, cs: set<char>): (r: string)
    ensures |r| <= |s|
  {
    if s != [] && s[|s| - 1] in cs then RStripChars(s[..|s| - 1], cs) else s
  }

  /** `rstrip` removes a suffix made of stripped characters, and leaves none at the end. */
  lemma {:induction false} RStripCharsSpec(s: string, cs: set<char>)
    ensures RStripChars(s, cs) == s[..|RStripChars(s, cs)|]
    ensures RStripChars(s, cs) == [] || RStripChars(s, cs)[|RStripChars(s, cs)| - 1] !in cs
    ensures forall i :: |RStripChars(s, cs)| <= i < |s| ==> s[i] in cs
  {
    if s != [] && s[|s| - 1] in cs {
      RStripCharsSpec(s[..|s| - 1], cs);
      assert s[..|s| - 1][..|RStripChars(s, cs)|] == s[..|RStripChars(s, cs)|];
    }
  }

  function StripChars(s: string, cs: set<char>): string
  {
    RStripChars(LStripChars(s, cs), cs)
  }

  const Whitespace: set<char> := {' ', '\t', '\n', '\r', '\U{000B}', '\U{000C}'}

  lemma WhitespaceIsSpace(c: char)
    ensures c in Whitespace <==> IsSpace(c)
  {
  }

  function LStrip(s: string): string { LStripChars(s, Whitespace) }

  function RStrip(s: string): string { RStripChars(s, Whitespace) }

  /** Python's `s.strip()`. */
  function Strip(s: string): string { StripChars(s, Whitespace) }

  /** A string that `rstrip()` leaves unchanged. */
  predicate RightStripped(s: string) { s == [] || !IsSpace(s[|s| - 1]) }

  lemma RStripIsRightStripped(s: string)
    ensures RightStripped(RStrip(s))
  {
    RStripCharsSpec(s, Whitespace);
  }

  // ----- split and join -----

  /** Python's `sep.join(xs)`. */
  function Join(sep: string, xs: seq<string>): string
  {
    if |xs| == 0 then ""
    else if |xs| == 1 then xs[0]
    else xs[0] + sep + Join(sep, xs[1..])
  }

  /** Python's `"".join(xs)`. */
  function Concat(xs: seq<string>): string
  {
    if |xs| == 0 then "" else xs[0] + Concat(xs[1..])
  }

  lemma ConcatAppend(xs: seq<string>, ys: seq<string>)
    ensures Concat(xs + ys) == Concat(xs) + Concat(ys)
  {
    if xs == [] {
      assert xs + ys == ys;
    } else {
      assert (xs + ys)[1..] == xs[1..] + ys;
      ConcatAppend(xs[1..], ys);
    }
  }

  lemma JoinAppend(sep: string, xs: seq<string>, x: string)
    requires xs != []
    ensures Join(sep, xs + [x]) == Join(sep, xs) + sep + x
  {
    if |xs| == 1 {
      assert xs + [x] == [xs[0], x];
    } else {
      assert (xs + [x])[1..] == xs[1..] + [x];
      JoinAppend(sep, xs[1..], x);
    }
  }

  /** Python's `s.split(sep)` for a non-empty separator. */
  function Split(s: string, sep: string): (r: seq<string>)
    requires sep != []
    ensures |r| >= 1
    decreases |s|
  {
    var i := Find(s, sep);
    if i == -1 then [s] else [s[..i]] + Split(s[i + |sep|..], sep)
  }

  lemma JoinCons(sep: string, x: string, xs: seq<string>)
    requires xs != []
    ensures Join(sep, [x] + xs) == x + sep + Join(sep, xs)
  {
    assert ([x] + xs)[1..] == xs;
  }

  /** The pieces around the first occurrence of `sep` put back together. */
  lemma SplitAt(s: string, sep: string, i: nat)
    requires OccursAt(s, sep, i)
    ensures s == s[..i] + sep + s[i + |sep|..]
  {
    assert s[..i] + sep == s[..i + |sep|];
  }

  /** `sep.join(s.split(sep)) == s`. */
  lemma {:induction false} SplitJoin(s: string, sep: string)
    requires sep != []
    ensures Join(sep, Split(s, sep)) == s
    decreases |s|
  {
    var i := Find(s, sep);
    if i != -1 {
      var rest := s[i + |sep|..];
      SplitJoin(rest, sep);
      JoinCons(sep, s[..i], Split(rest, sep));
      SplitAt(s, sep, i);
    }
  }

  /** `find` from `i` reports `k` when `p` occurs at `k` and nowhere between `i` and `k`. */
  lemma {:induction false} FindFromAt(s: string, p: string, i: nat, k: nat)
    requires i <= k && OccursAt(s, p, k)
    requires forall j :: i <= j < k ==> !OccursAt(s, p, j)
    ensures FindFrom(s, p, i) == k
    decreases k - i
  {
    if i < k {
      FindFromAt(s, p, i + 1, k);
    }
  }

  /** A piece that holds no `c`. */
  predicate Free(x: string, c: char) { forall j :: 0 <= j < |x| ==> x[j] != c }

  /** A text in which `find` reports no `c` holds no `c`. */
  lemma NotFoundFree(s: string, c: char)
    requires Find(s, [c]) == -1
    ensures Free(s, c)
  {
    FindFromFirst(s, [c], 0);
    forall j | 0 <= j < |s|
      ensures s[j] != c
    {
      assert !OccursAt(s, [c], j);
      assert s[j..j + 1] == [s[j]];
    }
  }

  /** What a suffix of `s` ends with, `s` ends with too. */
  lemma EndsWithSuffix(s: string, i: nat, t: string)
    requires i <= |s| && EndsWith(s[i..], t)
    ensures EndsWith(s, t)
  {
    assert s[|s| - |t|..] == s[i..][|s[i..]| - |t|..];
  }

  /** Splitting on a one-character separator undoes joining pieces that do not hold it. */
  lemma {:induction false} JoinSplit(c: char, xs: seq<string>)
    requires xs != [] && forall k :: 0 <= k < |xs| ==> Free(xs[k], c)
    ensures Split(Join([c], xs), [c]) == xs
    decreases |xs|
  {
    var s := Join([c], xs);
    if |xs| == 1 {
      forall j | 0 <= j <= |s|
        ensures !OccursAt(s, [c], j)
      {
        if j < |s| {
          assert s[j] != c;
        }
      }
    } else {
      var rest := Join([c], xs[1..]);
      assert s == xs[0] + [c] + rest;
      var n := |xs[0]|;
      assert s[n] == c && s[..n] == xs[0] && s[n + 1..] == rest;
      forall j | 0 <= j < n
        ensures !OccursAt(s, [c], j)
      {
        assert s[j] == xs[0][j];
      }
      assert s[n..n + 1] == [c];
      FindFromAt(s, [c], 0, n);
      JoinSplit(c, xs[1..]);
      assert Split(s, [c]) == [xs[0]] + xs[1..];
    }
  }

  /** A join begins with its first piece and ends with its last. */
  lemma {:induction false} JoinEnds(sep: string, xs: seq<string>)
    requires xs != []
    ensures StartsWith(Join(sep, xs), xs[0])
    ensures EndsWith(Join(sep, xs), xs[|xs| - 1])
    decreases |xs|
  {
    if |xs| > 1 {
      JoinEnds(sep, xs[1..]);
      var rest := Join(sep, xs[1..]);
      assert Join(sep, xs) == xs[0] + sep + rest;
      assert (xs[0] + sep + rest)[..|xs[0]|] == xs[0];
      var t := xs[|xs| - 1];
      assert rest[|rest| - |t|..] == t;
      assert (xs[0] + sep + rest)[|xs[0] + sep + rest| - |t|..] == rest[|rest| - |t|..];
    }
  }

  function FirstBreak(s: string, i: nat): (r: nat)
    requires i <= |s|
    ensures i <= r <= |s|
    ensures r < |s| ==> IsLineBreak(s[r])
    ensures forall j :: i <= j < r ==> !IsLineBreak(s[j])
    decreases |s| - i
  {
    if i == |s| || IsLineBreak(s[i]) then i else FirstBreak(s, i + 1)
  }

  /**
   * Python's `s.splitlines()` for the line boundaries "\n", "\r" and "\r\n":
   * no trailing empty line, and "" gives [].
   */
  function SplitLines(s: string): (r: seq<string>)
    ensures s == [] <==> r == []
    decreases |s|
  {
    if s == [] then []
    else
      var i := FirstBreak(s, 0);
      if i == |s| then [s]
      else
        var skip := if s[i] == '\r' && i + 1 < |s| && s[i + 1] == '\n' then 2 else 1;
        [s[..i]] + SplitLines(s[i + skip..])
  }

  /** `line` holds no line break. */
  predicate NoBreaks(line: string)
  {
    forall j :: 0 <= j < |line| ==> !IsLineBreak(line[j])
  }

  /** No line that `splitlines` returns holds a line break. */
  lemma {:induction false} SplitLinesNoBreaks(s: string)
    ensures forall k :: 0 <= k < |SplitLines(s)| ==> NoBreaks(SplitLines(s)[k])
    decreases |s|
  {
    if s != [] {
      var i := FirstBreak(s, 0);
      if i < |s| {
        var skip := if s[i] == '\r' && i + 1 < |s| && s[i + 1] == '\n' then 2 else 1;
        var t := s[i + skip..];
        SplitLinesNoBreaks(t);
        assert NoBreaks(s[..i]);
        LinesCons(s[..i], SplitLines(t));
        assert SplitLines(s) == [s[..i]] + SplitLines(t);
      } else {
        assert SplitLines(s) == [s];
      }
    }
  }

  /** A first line without breaks, before lines without breaks. */
  lemma LinesCons(line: string, rest: seq<string>)
    requires NoBreaks(line) && forall k :: 0 <= k < |rest| ==> NoBreaks(rest[k])
    ensures forall k :: 0 <= k < |[line] + rest| ==> NoBreaks(([line] + rest)[k])
  {
    forall k | 0 <= k < |[line] + rest|
      ensures NoBreaks(([line] + rest)[k])
    {
      if k > 0 {
        assert ([line] + rest)[k] == rest[k - 1];
      }
    }
  }

  /** A string with no line break is its own single line. */
  lemma SplitLinesSingle(s: string)
    requires s != [] && forall j :: 0 <= j < |s| ==> !IsLineBreak(s[j])
    ensures SplitLines(s) == [s]
  {
  }

  // ----- Python indexing and slicing -----

  /** `s[i]` with Python's negative indices; None where Python raises IndexError. */
  function PyIndex<T>(s: seq<T>, i: int): (r: Option<T>)
    ensures r.Some? <==> -|s| <= i < |s|
    ensures 0 <= i < |s| ==> r == Some(s[i])
  {
    if 0 <= i < |s| then Some(s[i])
    else if -|s| <= i < 0 then Some(s[|s| + i])
    else None
  }

  /** A slice bound normalised as Python does: negative counts from the end, then clamped. */
  function SliceBound(n: nat, i: int): (r: nat)
    ensures r <= n
    ensures 0 <= i <= n ==> r == i
  {
    if i < 0 then (if n + i < 0 then 0 else n + i) else if i > n then n else i
  }

  /** Python's `s[i:j]`. */
  function PySlice<T>(s: seq<T>, i: int, j: int): (r: seq<T>)
    ensures 0 <= i <= j <= |s| ==> r == s[i..j]
    ensures |r| <= |s|
  {
    var lo, hi := SliceBound(|s|, i), SliceBound(|s|, j);
    if lo < hi then s[lo..hi] else []
  }

  // ----- integers -----

  function Max(a: int, b: int): int { if a >= b then a else b }

  function Min(a: int, b: int): int { if a <= b then a else b }

  function DigitChar(d: nat): char
    requires d < 10
  {
    ('0' as int + d) as char
  }

  /** Decimal rendering of a natural number, as Python's `str(n)`. */
  function NatToString(n: nat): (r: string)
    ensures |r| >= 1 && AllDigits(r)
    ensures n >= 10 ==> r[0] != '0'
    decreases n
  {
    if n < 10 then [DigitChar(n)] else NatToString(n / 10) + [DigitChar(n % 10)]
  }

  /** Python's `str(i)` for an int. */
  function IntToString(i: int): string
  {
    if i < 0 then "-" + NatToString(-i) else NatToString(i)
  }

  function DigitValue(c: char): nat
  {
    if IsDigit(c) then c as int - '0' as int else 0
  }

  /** The value of a run of decimal digits. */
  function DigitsValue(s: string): nat
    decreases |s|
  {
    if s == [] then 0 else DigitsValue(s[..|s| - 1]) * 10 + DigitValue(s[|s| - 1])
  }

  lemma {:induction false} DigitsValueOfNatToString(n: nat)
    ensures DigitsValue(NatToString(n)) == n
    decreases n
  {
    if n >= 10 {
      DigitsValueOfNatToString(n / 10);
      var s := NatToString(n);
      assert s[..|s| - 1] == NatToString(n / 10);
    }
  }

  /**
   * Python's `int(s)` for an optionally signed run of ASCII digits after
   * whitespace stripping; None where Python raises ValueError.
   */
  function ParseInt(s: string): Option<int>
  {
    var t := Strip(s);
    if t != [] && AllDigits(t) then Some(DigitsValue(t))
    else if |t| >= 2 && (t[0] == '-' || t[0] == '+') && AllDigits(t[1..]) then
      Some(if t[0] == '-' then -(DigitsValue(t[1..]) as int) else DigitsValue(t[1..]))
    else None
  }

  lemma ParseIntOfNat(n: nat)
    ensures ParseInt(NatToString(n)) == Some(n)
  {
    var s := NatToString(n);
    assert s[0] !in Whitespace && s[|s| - 1] !in Whitespace;
    assert LStripChars(s, Whitespace) == s;
    assert Strip(s) == s;
    DigitsValueOfNatToString(n);
  }

  /** `int(str(i))` gives `i` back, for negative `i` too. */
  lemma ParseIntOfInt(i: int)
    ensures ParseInt(IntToString(i)) == Some(i)
  {
    if i < 0 {
      ParseIntOfNegative(-i);
    } else {
      ParseIntOfNat(i);
    }
  }

  lemma ParseIntOfNegative(n: nat)
    ensures ParseInt("-" + NatToString(n)) == Some(-(n as int))
  {
    var d := NatToString(n);
    var s := "-" + d;
    assert s[|s| - 1] == d[|d| - 1];
    assert s[0] !in Whitespace && s[|s| - 1] !in Whitespace;
    assert LStripChars(s, Whitespace) == s;
    assert Strip(s) == s;
    assert s[1..] == d;
    DigitsValueOfNatToString(n);
  }

  // ----- replacement -----

  /** Python's `s.replace(old, new)` for a non-empty `old`. */
  function ReplaceAll(s: string, target: string, repl: string): string
    requires target != []
    decreases |s|
  {
    var i := Find(s, target);
    if i == -1 then s else s[..i] + repl + ReplaceAll(s[i + |target|..], target, repl)
  }

  /** Replacing a target that does not occur changes nothing. */
  lemma ReplaceAbsent(s: string, target: string, repl: string)
    requires target != [] && !Contains(s, target)
    ensures ReplaceAll(s, target, repl) == s
  {
  }
}
