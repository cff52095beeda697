/**
 * Text helpers that the JavaScript and Python sources get from their string
 * libraries: trimming, ASCII case mapping, whitespace collapsing, splitting
 * on a character, joining, and decimal printing/parsing of naturals.
 * Characters are Dafny `char`s; only the ASCII letters have a case mapping
 * here (see README, "Left out").
 */
module Strings {
  import opened Wrappers

  /** The whitespace set used by `trim()`, `strip()` and `\s` (its ASCII part). */
  predicate IsSpace(c: char) {
    c == ' ' || c == '\t' || c == '\n' || c == '\r' || c == '\U{B}' || c == '\U{C}'
  }

  predicate IsDigit(c: char) {
    '0' <= c <= '9'
  }

  predicate IsLowerAlnum(c: char) {
    ('a' <= c <= 'z') || IsDigit(c)
  }

  predicate AllDigits(s: string) {
    forall i :: 0 <= i < |s| ==> IsDigit(s[i])
  }

  // ---------------------------------------------------------------------------
  // Trimming

  function TrimStart(s: string): (r: string)
    ensures |r| <= |s| && r == s[|s| - |r|..]
    ensures forall k :: 0 <= k < |s| - |r| ==> IsSpace(s[k])
    ensures r == [] || !IsSpace(r[0])
  {
    if |s| > 0 && IsSpace(s[0]) then
      var t := s[1..];
      var r := TrimStart(t);
      assert t[|t| - |r|..] == s[|s| - |r|..];
      assert forall k :: 1 <= k < |s| - |r| ==> s[k] == t[k - 1];
      r
    else
      s
  }

  function TrimEnd(s: string): (r: string)
    ensures |r| <= |s| && r == s[..|r|]
    ensures forall k :: |r| <= k < |s| ==> IsSpace(s[k])
    ensures r == [] || !IsSpace(r[|r| - 1])
  {
    if |s| > 0 && IsSpace(s[|s| - 1]) then
      var t := s[..|s| - 1];
      var r := TrimEnd(t);
      assert t[..|r|] == s[..|r|];
      assert forall k :: |r| <= k < |t| ==> s[k] == t[k];
      r
    else
      s
  }

  /** `s.trim()` / `s.strip()`: the longest infix that neither starts nor ends with whitespace. */
  function Trim(s: string): (r: string)
    ensures exists i, j :: 0 <= i <= j <= |s| && r == s[i..j]
    ensures r == [] || (!IsSpace(r[0]) && !IsSpace(r[|r| - 1]))
  {
    var t := TrimStart(s);
    var r := TrimEnd(t);
    InfixOfSuffix(s, t, r);
    r
  }

  /** A prefix of a suffix of `s` is an infix of `s`. */
  lemma InfixOfSuffix(s: string, t: string, r: string)
    requires |t| <= |s| && t == s[|s| - |t|..]
    requires |r| <= |t| && r == t[..|r|]
    ensures exists i, j :: 0 <= i <= j <= |s| && r == s[i..j]
  {
    var i := |s| - |t|;
    assert r == s[i..i + |r|];
  }

  lemma {:induction false} TrimStartOfClean(s: string)
    requires s == [] || !IsSpace(s[0])
    ensures TrimStart(s) == s
  {
  }

  lemma {:induction false} TrimEndOfClean(s: string)
    requires s == [] || !IsSpace(s[|s| - 1])
    ensures TrimEnd(s) == s
  {
  }

  /** A string with no whitespace at either end is its own trim. */
  lemma TrimOfClean(s: string)
    requires s == [] || (!IsSpace(s[0]) && !IsSpace(s[|s| - 1]))
    ensures Trim(s) == s
  {
    TrimStartOfClean(s);
    TrimEndOfClean(s);
  }

  /** Trimming twice trims nothing more. */
  lemma TrimIdempotent(s: string)
    ensures Trim(Trim(s)) == Trim(s)
  {
    var r := Trim(s);
    TrimStartOfClean(r);
    TrimEndOfClean(r);
  }

  /** A string with no whitespace at all is its own trim. */
  lemma TrimNoSpace(s: string)
    requires forall i :: 0 <= i < |s| ==> !IsSpace(s[i])
    ensures Trim(s) == s
  {
    TrimStartOfClean(s);
    TrimEndOfClean(s);
  }

  /** Every character of a string of blanks is trimmed away. */
  lemma {:induction false} TrimAllSpace(s: string)
    requires forall i :: 0 <= i < |s| ==> IsSpace(s[i])
    ensures Trim(s) == []
  {
    if |s| > 0 {
      TrimAllSpace(s[1..]);
    }
  }

  // ---------------------------------------------------------------------------
  // ASCII case mapping

  function LowerChar(c: char): char {
    if 'A' <= c <= 'Z' then (c as int + 32) as char else c
  }

  function UpperChar(c: char): char {
    if 'a' <= c <= 'z' then (c as int - 32) as char else c
  }

  /** `s.toLowerCase()` / `s.lower()` on ASCII letters. */
  function ToLower(s: string): (r: string)
    ensures |r| == |s|
    ensures forall i :: 0 <= i < |s| ==> r[i] == LowerChar(s[i])
  {
    if s == [] then [] else [LowerChar(s[0])] + ToLower(s[1..])
  }

  /** `s.toUpperCase()` on ASCII letters. */
  function ToUpper(s: string): (r: string)
    ensures |r| == |s|
    ensures forall i :: 0 <= i < |s| ==> r[i] == UpperChar(s[i])
  {
    if s == [] then [] else [UpperChar(s[0])] + ToUpper(s[1..])
  }

  lemma ToLowerIdempotent(s: string)
    ensures ToLower(ToLower(s)) == ToLower(s)
  {
    assert forall i :: 0 <= i < |s| ==> ToLower(ToLower(s))[i] == ToLower(s)[i];
  }

  /** Lower-casing keeps whitespace where it was and adds none. */
  lemma ToLowerKeepsSpaces(s: string)
    ensures forall i :: 0 <= i < |s| ==> (IsSpace(ToLower(s)[i]) <==> IsSpace(s[i]))
  {
  }

  /** Lower-casing commutes with trimming, since it maps blanks to blanks. */
  lemma {:induction false} TrimStartLower(s: string)
    ensures TrimStart(ToLower(s)) == ToLower(TrimStart(s))
  {
    if |s| > 0 {
      var l := ToLower(s);
      assert l[0] == LowerChar(s[0]);
      if IsSpace(s[0]) {
        assert IsSpace(l[0]);
        assert TrimStart(s) == TrimStart(s[1..]);
        assert TrimStart(l) == TrimStart(l[1..]);
        assert l[1..] == ToLower(s[1..]);
        TrimStartLower(s[1..]);
      } else {
        assert !IsSpace(l[0]);
        assert TrimStart(s) == s;
        assert TrimStart(l) == l;
      }
    }
  }

  lemma {:induction false} TrimEndLower(s: string)
    ensures TrimEnd(ToLower(s)) == ToLower(TrimEnd(s))
  {
    if |s| > 0 {
      var l := ToLower(s);
      assert l[|s| - 1] == LowerChar(s[|s| - 1]);
      if IsSpace(s[|s| - 1]) {
        assert l[..|s| - 1] == ToLower(s[..|s| - 1]);
        TrimEndLower(s[..|s| - 1]);
      }
    }
  }

  lemma TrimLower(s: string)
    ensures Trim(ToLower(s)) == ToLower(Trim(s))
  {
    TrimStartLower(s);
    TrimEndLower(TrimStart(s));
  }

  /** Strings that agree up to ASCII case still agree after trimming and lower-casing. */
  lemma TrimLowerCaseInsensitive(s: string, t: string)
    requires ToLower(s) == ToLower(t)
    ensures ToLower(Trim(s)) == ToLower(Trim(t))
  {
    TrimLower(s);
    TrimLower(t);
  }

  lemma {:induction false} TrimStartPadded(w: string, s: string)
    requires forall i :: 0 <= i < |w| ==> IsSpace(w[i])
    ensures TrimStart(w + s) == TrimStart(s)
  {
    if |w| > 0 {
      assert (w + s)[1..] == w[1..] + s;
      TrimStartPadded(w[1..], s);
    } else {
      assert w + s == s;
    }
  }

  lemma {:induction false} TrimEndPadded(s: string, w: string)
    requires forall i :: 0 <= i < |w| ==> IsSpace(w[i])
    ensures TrimEnd(s + w) == TrimEnd(s)
  {
    if |w| > 0 {
      assert (s + w)[..|s + w| - 1] == s + w[..|w| - 1];
      TrimEndPadded(s, w[..|w| - 1]);
    } else {
      assert s + w == s;
    }
  }

  lemma {:induction false} TrimStartAppend(s: string, w: string)
    ensures TrimStart(s + w) == TrimStart(s) + w || (TrimStart(s) == [] && TrimStart(s + w) == TrimStart(w))
  {
    if |s| > 0 {
      assert (s + w)[1..] == s[1..] + w;
      TrimStartAppend(s[1..], w);
    } else {
      assert s + w == w;
    }
  }

  /** Blanks added on either side of a string are trimmed away again. */
  lemma TrimPadded(w1: string, s: string, w2: string)
    requires forall i :: 0 <= i < |w1| ==> IsSpace(w1[i])
    requires forall i :: 0 <= i < |w2| ==> IsSpace(w2[i])
    ensures Trim(w1 + s + w2) == Trim(s)
  {
    assert w1 + s + w2 == w1 + (s + w2);
    TrimStartPadded(w1, s + w2);
    TrimStartAppend(s, w2);
    if TrimStart(s + w2) == TrimStart(s) + w2 {
      TrimEndPadded(TrimStart(s), w2);
    } else {
      TrimStartPadded(w2, []);
      assert w2 + [] == w2;
      TrimAllSpace(w2);
    }
  }

  // ---------------------------------------------------------------------------
  // Whitespace collapsing: `s.replace(/\s+/g, ' ')`

  function CollapseSpaces(s: string): (r: string)
    ensures forall i :: 0 <= i < |r| ==> (IsSpace(r[i]) ==> r[i] == ' ')
    ensures forall i :: 0 <= i < |r| - 1 ==> !(IsSpace(r[i]) && IsSpace(r[i + 1]))
    ensures |r| <= |s|
    ensures r == [] <==> s == []
    ensures s != [] ==> (IsSpace(r[0]) <==> IsSpace(s[0]))
    ensures s != [] ==> (IsSpace(r[|r| - 1]) <==> IsSpace(s[|s| - 1]))
    decreases |s|
  {
    if s == [] then []
    else if IsSpace(s[0]) then
      var rest := TrimStart(s[1..]);
      assert rest == [] || !IsSpace(rest[0]);
      var tail := CollapseSpaces(rest);
      ConsCollapsed(' ', tail);
      [' '] + tail
    else
      var tail := CollapseSpaces(s[1..]);
      ConsCollapsed(s[0], tail);
      [s[0]] + tail
  }

  /** Putting a character in front of a collapsed text keeps it collapsed, unless it makes two blanks meet. */
  lemma ConsCollapsed(c: char, tail: string)
    requires forall i :: 0 <= i < |tail| ==> (IsSpace(tail[i]) ==> tail[i] == ' ')
    requires forall i :: 0 <= i < |tail| - 1 ==> !(IsSpace(tail[i]) && IsSpace(tail[i + 1]))
    requires IsSpace(c) ==> c == ' ' && (tail == [] || !IsSpace(tail[0]))
    ensures forall i :: 0 <= i < |[c] + tail| ==> (IsSpace(([c] + tail)[i]) ==> ([c] + tail)[i] == ' ')
    ensures forall i :: 0 <= i < |[c] + tail| - 1 ==> !(IsSpace(([c] + tail)[i]) && IsSpace(([c] + tail)[i + 1]))
  {
    var r := [c] + tail;
    assert forall i :: 1 <= i < |r| ==> r[i] == tail[i - 1];
  }

  // ---------------------------------------------------------------------------
  // Splitting and joining

  /** `s.split(c)` for a one-character separator: always at least one part. */
  function SplitOn(s: string, c: char): (parts: seq<string>)
    ensures |parts| >= 1
    ensures forall i :: 0 <= i < |parts| ==> c !in parts[i]
  {
    if s == [] then [""]
    else if s[0] == c then [""] + SplitOn(s[1..], c)
    else
      var rest := SplitOn(s[1..], c);
      [[s[0]] + rest[0]] + rest[1..]
  }

  /** `parts.join(sep)`. */
  function Join(parts: seq<string>, sep: string): (r: string)
  {
    if parts == [] then ""
    else if |parts| == 1 then parts[0]
    else parts[0] + sep + Join(parts[1..], sep)
  }

  /** A non-empty join starts with the first part and ends with the last. */
  lemma {:induction false} JoinEnds(parts: seq<string>, sep: string)
    requires parts != []
    ensures |Join(parts, sep)| >= |parts[0]| && Join(parts, sep)[..|parts[0]|] == parts[0]
    ensures |Join(parts, sep)| >= |parts[|parts| - 1]|
    ensures Join(parts, sep)[|Join(parts, sep)| - |parts[|parts| - 1]|..] == parts[|parts| - 1]
  {
    if |parts| > 1 {
      JoinEnds(parts[1..], sep);
      var j := Join(parts[1..], sep);
      var last := parts[|parts| - 1];
      assert parts[1..][|parts[1..]| - 1] == last;
      var r := parts[0] + sep + j;
      assert r[|r| - |last|..] == j[|j| - |last|..];
    }
  }

  lemma {:induction false} JoinConsHead(x: string, parts: seq<string>, sep: string)
    requires |parts| >= 1
    ensures Join([x + parts[0]] + parts[1..], sep) == x + Join(parts, sep)
  {
    var l := [x + parts[0]] + parts[1..];
    if |parts| == 1 {
    } else {
      assert l[1..] == parts[1..];
    }
  }

  /** Splitting on a character and joining with it gives back the string. */
  lemma {:induction false} JoinSplit(s: string, c: char)
    ensures Join(SplitOn(s, c), [c]) == s
  {
    if s == [] {
    } else if s[0] == c {
      var rest := SplitOn(s[1..], c);
      JoinSplit(s[1..], c);
      assert ([""] + rest)[1..] == rest;
      assert s == [c] + s[1..];
    } else {
      var rest := SplitOn(s[1..], c);
      JoinSplit(s[1..], c);
      JoinConsHead([s[0]], rest, [c]);
      assert s == [s[0]] + s[1..];
    }
  }

  lemma {:induction false} SplitAppendSep(a: string, c: char, b: string)
    requires c !in a
    ensures SplitOn(a + [c] + b, c) == [a] + SplitOn(b, c)
    decreases |a|
  {
    if a == [] {
      assert a + [c] + b == [c] + b;
      assert ([c] + b)[1..] == b;
    } else {
      SplitAppendSep(a[1..], c, b);
      assert (a + [c] + b)[1..] == a[1..] + [c] + b;
      assert [a[0]] + a[1..] == a;
    }
  }

  lemma {:induction false} SplitNoSep(a: string, c: char)
    requires c !in a
    ensures SplitOn(a, c) == [a]
    decreases |a|
  {
    if a != [] {
      SplitNoSep(a[1..], c);
      assert [a[0]] + a[1..] == a;
    }
  }

  /** Joining parts that do not contain the separator and splitting again gives the parts. */
  lemma {:induction false} SplitJoin(parts: seq<string>, c: char)
    requires |parts| >= 1
    requires forall i :: 0 <= i < |parts| ==> c !in parts[i]
    ensures SplitOn(Join(parts, [c]), c) == parts
  {
    if |parts| == 1 {
      SplitNoSep(parts[0], c);
    } else {
      SplitJoin(parts[1..], c);
      SplitAppendSep(parts[0], c, Join(parts[1..], [c]));
      assert parts[0] + [c] + Join(parts[1..], [c]) == Join(parts, [c]);
      assert [parts[0]] + parts[1..] == parts;
    }
  }

  // ---------------------------------------------------------------------------
  // Decimal naturals: `String(n)` and `parseInt` on a digit run

  function DigitChar(d: nat): char
    requires d < 10
  {
    ('0' as int + d) as char
  }

  function DigitValue(c: char): nat
    requires IsDigit(c)
  {
    c as int - '0' as int
  }

  /** `String(n)` for a natural number. */
  function NatToString(n: nat): (s: string)
    ensures |s| >= 1 && AllDigits(s)
    ensures |s| > 1 ==> s[0] != '0'
  {
    if n < 10 then [DigitChar(n)] else NatToString(n / 10) + [DigitChar(n % 10)]
  }

  /** The value of a run of decimal digits. */
  function ParseDigits(s: string): (n: nat)
    requires AllDigits(s)
  {
    if s == [] then 0 else 10 * ParseDigits(s[..|s| - 1]) + DigitValue(s[|s| - 1])
  }

  /** Printing a natural and reading the digits back gives the natural. */
  lemma {:induction false} ParseNatToString(n: nat)
    ensures ParseDigits(NatToString(n)) == n
  {
    if n >= 10 {
      var s := NatToString(n);
      assert s[..|s| - 1] == NatToString(n / 10);
      ParseNatToString(n / 10);
    }
  }

  /** Distinct naturals print differently. */
  lemma NatToStringInjective(m: nat, n: nat)
    requires NatToString(m) == NatToString(n)
    ensures m == n
  {
    ParseNatToString(m);
    ParseNatToString(n);
  }

  /** `String(i)` for an integer. */
  function IntToString(i: int): (s: string)
    ensures |s| >= 1
    ensures i >= 0 ==> s == NatToString(i)
    ensures i < 0 ==> s == "-" + NatToString(-i)
  {
    if i >= 0 then NatToString(i) else "-" + NatToString(-i)
  }

  // ---------------------------------------------------------------------------
  // Searching

  predicate IsPrefix(p: string, s: string) {
    |p| <= |s| && s[..|p|] == p
  }

  /** `sub` occurs in `s` starting at index `k`. */
  predicate OccursAt(s: string, sub: string, k: nat) {
    k + |sub| <= |s| && s[k..k + |sub|] == sub
  }

  /** `s.indexOf(sub, from)`: the first index at or after `from` where `sub` occurs. */
  function FindSub(s: string, sub: string, from: nat := 0): (r: Option<nat>)
    requires from <= |s|
    ensures r.Some? ==> from <= r.value && OccursAt(s, sub, r.value)
    ensures r.Some? ==> forall k :: from <= k < r.value ==> !OccursAt(s, sub, k)
    ensures r.None? ==> forall k :: from <= k ==> !OccursAt(s, sub, k)
    decreases |s| - from
  {
    if from + |sub| > |s| then None
    else if s[from..from + |sub|] == sub then Some(from)
    else FindSub(s, sub, from + 1)
  }


  /** `s.indexOf(c)`: the first index holding `c`. */
  function FirstIndex(s: string, c: char): (r: Option<nat>)
    ensures r.Some? ==> r.value < |s| && s[r.value] == c && forall k :: 0 <= k < r.value ==> s[k] != c
    ensures r.None? ==> forall k :: 0 <= k < |s| ==> s[k] != c
  {
    if s == [] then None
    else if s[0] == c then Some(0)
    else
      var r := FirstIndex(s[1..], c);
      if r.Some? then Some(r.value + 1) else None
  }

  /** `s.lastIndexOf(c)`: the last index holding `c`. */
  function LastIndex(s: string, c: char): (r: Option<nat>)
    ensures r.Some? ==> r.value < |s| && s[r.value] == c && forall k :: r.value < k < |s| ==> s[k] != c
    ensures r.None? ==> forall k :: 0 <= k < |s| ==> s[k] != c
  {
    if s == [] then None
    else if s[|s| - 1] == c then Some(|s| - 1)
    else LastIndex(s[..|s| - 1], c)
  }

  /**
   * The match of the regular expression `/{[\s\S]*}/`: leftmost, then
   * longest, so it runs from the first `{` to the last `}`, and there is no
   * match when no `}` follows the first `{`.
   */
  function GreedyBraces(s: string): (r: Option<string>)
    ensures r.Some? ==> |r.value| >= 2 && r.value[0] == '{' && r.value[|r.value| - 1] == '}'
    ensures r.None? <==> forall i, j :: 0 <= i < j < |s| && s[i] == '{' ==> s[j] != '}'
  {
    var i := FirstIndex(s, '{');
    var j := LastIndex(s, '}');
    if i.Some? && j.Some? && i.value < j.value then
      Some(s[i.value..j.value + 1])
    else
      None
  }

  /**
   * The greedy match is the one span that opens with `{`, closes with `}`,
   * has no `{` before it and no `}` after it.
   */
  lemma GreedyBracesUnique(pre: string, body: string, post: string)
    requires forall k :: 0 <= k < |pre| ==> pre[k] != '{'
    requires forall k :: 0 <= k < |post| ==> post[k] != '}'
    requires |body| >= 2 && body[0] == '{' && body[|body| - 1] == '}'
    ensures GreedyBraces(pre + body + post) == Some(body)
  {
    var s := pre + body + post;
    forall k | 0 <= k < |pre| ensures s[k] != '{' {
      assert s[k] == pre[k];
    }
    forall k | |pre| + |body| <= k < |s| ensures s[k] != '}' {
      assert s[k] == post[k - |pre| - |body|];
    }
    assert s[|pre|] == '{';
    assert s[|pre| + |body| - 1] == '}';
    FirstIndexAt(s, '{', |pre|);
    LastIndexAt(s, '}', |pre| + |body| - 1);
    assert s[|pre|..|pre| + |body|] == body;
  }

  lemma FirstIndexAt(s: string, c: char, p: nat)
    requires p < |s| && s[p] == c && forall k :: 0 <= k < p ==> s[k] != c
    ensures FirstIndex(s, c) == Some(p)
  {
  }

  lemma LastIndexAt(s: string, c: char, p: nat)
    requires p < |s| && s[p] == c && forall k :: p < k < |s| ==> s[k] != c
    ensures LastIndex(s, c) == Some(p)
  {
  }

  // ---------------------------------------------------------------------------
  // Ordering

  /**
   * Three-way lexicographic comparison by character code: `-1`, `0` or `1`.
   * This stands for `localeCompare` and for `<` on strings.
   */
  function Compare(a: string, b: string): (c: int)
    ensures -1 <= c <= 1
    ensures c == 0 <==> a == b
  {
    if a == [] && b == [] then 0
    else if a == [] then -1
    else if b == [] then 1
    else if a[0] < b[0] then -1
    else if a[0] > b[0] then 1
    else
      var c := Compare(a[1..], b[1..]);
      assert c == 0 ==> a == [a[0]] + a[1..] == [b[0]] + b[1..] == b;
      c
  }

  /** Swapping the arguments flips the comparison. */
  lemma {:induction false} CompareAntisymmetric(a: string, b: string)
    ensures Compare(a, b) == -Compare(b, a)
  {
    if a != [] && b != [] && a[0] == b[0] {
      CompareAntisymmetric(a[1..], b[1..]);
    }
  }

  /** The comparison is transitive, so it orders strings totally. */
  lemma {:induction false} CompareTransitive(a: string, b: string, c: string)
    requires Compare(a, b) <= 0 && Compare(b, c) <= 0
    ensures Compare(a, c) <= 0
  {
    if a != [] && b != [] && c != [] && a[0] == b[0] && b[0] == c[0] {
      CompareTransitive(a[1..], b[1..], c[1..]);
    }
  }
}
