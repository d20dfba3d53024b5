/**
 * The Python string operations the bot relies on, over `string` (a sequence of code points):
 * `str.lower`, `str.isspace`, `str.strip`, the `in` operator on strings, `str.split`,
 * `str.startswith`, `str.isdigit`, `int(...)` and `str(...)` on integers, and the two
 * whitespace-collapsing regular-expression substitutions used on oracle replies.
 */
module Text {
  import opened Wrappers

  // ------------------------------------------------------------------
  // Characters
  // ------------------------------------------------------------------

  /** The characters for which Python's `str.isspace()` holds. */
  predicate IsSpace(c: char) {
    || c == ' '
    || ('\t' <= c <= '\r')
    || ('\U{1c}' <= c <= '\U{1f}')
    || c == '\U{85}'
    || c == '\U{a0}'
    || c == '\U{1680}'
    || ('\U{2000}' <= c <= '\U{200a}')
    || c == '\U{2028}'
    || c == '\U{2029}'
    || c == '\U{202f}'
    || c == '\U{205f}'
    || c == '\U{3000}'
  }

  predicate IsDigit(c: char) {
    '0' <= c <= '9'
  }

  /**
   * Python's `str.lower()` on one character, for the alphabets the bot's phrases use:
   * Latin A-Z, Cyrillic А-Я and the Cyrillic letters Ѐ-Џ (among them Ё). Every other
   * character is left as it is.
   */
  function LowerChar(c: char): (r: char)
    ensures IsSpace(r) == IsSpace(c)
    ensures IsDigit(r) == IsDigit(c)
  {
    if 'A' <= c <= 'Z' then (c as int + 32) as char
    else if '\U{410}' <= c <= '\U{42f}' then (c as int + 32) as char
    else if '\U{400}' <= c <= '\U{40f}' then (c as int + 80) as char
    else c
  }

  /** Python's `s.lower()`. */
  function Lower(s: string): string {
    seq(|s|, i requires 0 <= i < |s| => LowerChar(s[i]))
  }

  lemma LowerCharIdempotent(c: char)
    ensures LowerChar(LowerChar(c)) == LowerChar(c)
  {
  }

  /** Lower-casing twice is lower-casing once. */
  lemma LowerIdempotent(s: string)
    ensures Lower(Lower(s)) == Lower(s)
  {
    forall i | 0 <= i < |s| ensures Lower(Lower(s))[i] == Lower(s)[i] {
      LowerCharIdempotent(s[i]);
    }
  }

  lemma LowerAppend(a: string, b: string)
    ensures Lower(a + b) == Lower(a) + Lower(b)
  {
  }

  lemma LowerSlice(s: string, i: nat, j: nat)
    requires i <= j <= |s|
    ensures Lower(s[i..j]) == Lower(s)[i..j]
  {
  }

  // ------------------------------------------------------------------
  // Stripping whitespace
  // ------------------------------------------------------------------

  /** Python's `s.lstrip()`: the suffix left after removing the leading whitespace. */
  function LStrip(s: string): (r: string)
    ensures |r| <= |s| && r == s[|s| - |r|..]
    ensures r == [] || !IsSpace(r[0])
    ensures forall i :: 0 <= i < |s| - |r| ==> IsSpace(s[i])
    decreases |s|
  {
    if s != [] && IsSpace(s[0]) then LStrip(s[1..]) else s
  }

  /** Python's `s.rstrip()`: the prefix left after removing the trailing whitespace. */
  function RStrip(s: string): (r: string)
    ensures |r| <= |s| && r == s[..|r|]
    ensures r == [] || !IsSpace(r[|r| - 1])
    ensures forall i :: |r| <= i < |s| ==> IsSpace(s[i])
    decreases |s|
  {
    if s != [] && IsSpace(s[|s| - 1]) then RStrip(s[..|s| - 1]) else s
  }

  /** Python's `s.strip()`. */
  function Strip(s: string): (r: string) {
    RStrip(LStrip(s))
  }

  /** The stripped text is the slice of `s` between its leading and its trailing whitespace. */
  lemma StripIsSlice(s: string)
    ensures var lead := |s| - |LStrip(s)|;
      lead + |Strip(s)| <= |s| && Strip(s) == s[lead..lead + |Strip(s)|]
    ensures Strip(s) == [] || (!IsSpace(Strip(s)[0]) && !IsSpace(Strip(s)[|Strip(s)| - 1]))
    ensures forall i :: 0 <= i < |s| - |LStrip(s)| ==> IsSpace(s[i])
    ensures forall i :: |s| - |LStrip(s)| + |Strip(s)| <= i < |s| ==> IsSpace(s[i])
  {
    var l := LStrip(s);
    var r := RStrip(l);
    SliceFacts(s, l, r, |s| - |l|);
  }

  /** What `StripIsSlice` states, for a suffix `l` of `s` and a prefix `r` of `l`. */
  lemma SliceFacts(s: string, l: string, r: string, lead: nat)
    requires lead + |l| == |s| && l == s[lead..]
    requires l == [] || !IsSpace(l[0])
    requires |r| <= |l| && r == l[..|r|]
    requires r == [] || !IsSpace(r[|r| - 1])
    requires forall i :: |r| <= i < |l| ==> IsSpace(l[i])
    ensures lead + |r| <= |s| && r == s[lead..lead + |r|]
    ensures r == [] || (!IsSpace(r[0]) && !IsSpace(r[|r| - 1]))
    ensures forall i :: lead + |r| <= i < |s| ==> IsSpace(s[i])
  {
    if r != [] {
      assert r[0] == l[0];
    }
    forall i | lead + |r| <= i < |s| ensures IsSpace(s[i]) {
      assert s[i] == l[i - lead];
    }
  }

  /** A non-empty stripped text starts and ends with a non-space character. */
  lemma StripEnds(s: string)
    requires Strip(s) != []
    ensures !IsSpace(Strip(s)[0]) && !IsSpace(Strip(s)[|Strip(s)| - 1])
  {
    StripIsSlice(s);
  }

  /** A text without whitespace at either end is its own strip. */
  lemma StripNoEdgeSpace(s: string)
    requires s == [] || (!IsSpace(s[0]) && !IsSpace(s[|s| - 1]))
    ensures Strip(s) == s
  {
  }

  /** Whitespace followed by a text that starts with a non-space: `lstrip()` leaves the text. */
  lemma LStripUnique(p: string, t: string)
    requires forall i :: 0 <= i < |p| ==> IsSpace(p[i])
    requires t == [] || !IsSpace(t[0])
    ensures LStrip(p + t) == t
  {
    var s := p + t;
    var r := LStrip(s);
    assert forall i :: 0 <= i < |p| ==> s[i] == p[i];
    if t != [] {
      assert s[|p|] == t[0];
    }
    if r != [] {
      assert r[0] == s[|s| - |r|];
    }
    assert r == s[|p|..];
  }

  /** A text that ends with a non-space followed by whitespace: `rstrip()` leaves the text. */
  lemma RStripUnique(t: string, q: string)
    requires forall i :: 0 <= i < |q| ==> IsSpace(q[i])
    requires t == [] || !IsSpace(t[|t| - 1])
    ensures RStrip(t + q) == t
  {
    var s := t + q;
    var r := RStrip(s);
    assert forall i :: |t| <= i < |s| ==> s[i] == q[i - |t|];
    if t != [] {
      assert s[|t| - 1] == t[|t| - 1];
    }
    if r != [] {
      assert r[|r| - 1] == s[|r| - 1];
    }
    assert r == s[..|t|];
  }

  /** `strip()` of whitespace, a text without whitespace at its ends, and whitespace is the text. */
  lemma StripUnique(p: string, t: string, q: string)
    requires forall i :: 0 <= i < |p| ==> IsSpace(p[i])
    requires forall i :: 0 <= i < |q| ==> IsSpace(q[i])
    requires t == [] || (!IsSpace(t[0]) && !IsSpace(t[|t| - 1]))
    ensures Strip(p + t + q) == t
  {
    if t == [] {
      assert p + t + q == (p + q) + [];
      forall i | 0 <= i < |p + q| ensures IsSpace((p + q)[i]) {
        if i >= |p| {
          assert (p + q)[i] == q[i - |p|];
        }
      }
      LStripUnique(p + q, []);
    } else {
      assert p + t + q == p + (t + q);
      LStripUnique(p, t + q);
      RStripUnique(t, q);
    }
  }

  /** A text split around its stripped form: leading whitespace, the stripped text, trailing whitespace. */
  lemma StripSplit(s: string) returns (p: string, q: string)
    ensures s == p + Strip(s) + q
    ensures forall i :: 0 <= i < |p| ==> IsSpace(p[i])
    ensures forall i :: 0 <= i < |q| ==> IsSpace(q[i])
  {
    var l := LStrip(s);
    var lead := |s| - |l|;
    var w := RStrip(l);
    var n := |w|;
    SpacePrefix(s, lead);
    SpaceSuffix(l, n);
    p, q := s[..lead], l[n..];
    SliceOfSuffix(s, l, w, lead);
    Concat3(s, lead, lead + n);
  }

  lemma SliceOfSuffix<T>(s: seq<T>, l: seq<T>, w: seq<T>, lead: nat)
    requires lead <= |s| && l == s[lead..] && |w| <= |l| && w == l[..|w|]
    ensures w == s[lead..lead + |w|] && l[|w|..] == s[lead + |w|..]
  {
  }

  lemma Concat3<T>(s: seq<T>, a: nat, b: nat)
    requires a <= b <= |s|
    ensures s == s[..a] + s[a..b] + s[b..]
  {
  }

  lemma SpacePrefix(s: string, n: nat)
    requires n <= |s| && forall i :: 0 <= i < n ==> IsSpace(s[i])
    ensures forall i :: 0 <= i < |s[..n]| ==> IsSpace(s[..n][i])
  {
  }

  lemma SpaceSuffix(s: string, n: nat)
    requires n <= |s| && forall i :: n <= i < |s| ==> IsSpace(s[i])
    ensures forall i :: 0 <= i < |s[n..]| ==> IsSpace(s[n..][i])
  {
    forall i | 0 <= i < |s[n..]| ensures IsSpace(s[n..][i]) {
      assert s[n..][i] == s[n + i];
    }
  }

  lemma SpacesJoin(p: string, q: string)
    requires forall i :: 0 <= i < |p| ==> IsSpace(p[i])
    requires forall i :: 0 <= i < |q| ==> IsSpace(q[i])
    ensures forall i :: 0 <= i < |p + q| ==> IsSpace((p + q)[i])
  {
    forall i | 0 <= i < |p + q| ensures IsSpace((p + q)[i]) {
      if i >= |p| {
        assert (p + q)[i] == q[i - |p|];
      }
    }
  }

  lemma StripIdempotent(s: string)
    ensures Strip(Strip(s)) == Strip(s)
  {
    StripIsSlice(s);
    StripNoEdgeSpace(Strip(s));
  }

  /** Stripping and lower-casing commute, because lower-casing keeps whitespace in place. */
  lemma {:induction false} LStripLower(s: string)
    ensures LStrip(Lower(s)) == Lower(LStrip(s))
    decreases |s|
  {
    if s != [] && IsSpace(s[0]) {
      assert Lower(s)[1..] == Lower(s[1..]);
      LStripLower(s[1..]);
    }
  }

  lemma {:induction false} RStripLower(s: string)
    ensures RStrip(Lower(s)) == Lower(RStrip(s))
    decreases |s|
  {
    if s != [] && IsSpace(s[|s| - 1]) {
      assert Lower(s)[..|s| - 1] == Lower(s[..|s| - 1]);
      RStripLower(s[..|s| - 1]);
    }
  }

  lemma StripLower(s: string)
    ensures Strip(Lower(s)) == Lower(Strip(s))
  {
    LStripLower(s);
    RStripLower(LStrip(s));
  }

  /** Python's `s.lstrip(c)` for a one-character argument. */
  function TrimLeading(s: string, c: char): (r: string)
    ensures |r| <= |s| && r == s[|s| - |r|..]
    ensures r == [] || r[0] != c
    ensures forall i :: 0 <= i < |s| - |r| ==> s[i] == c
    decreases |s|
  {
    if s != [] && s[0] == c then TrimLeading(s[1..], c) else s
  }

  // ------------------------------------------------------------------
  // Substrings
  // ------------------------------------------------------------------

  /** `p` occurs in `s` at index `i`. */
  ghost predicate OccursAt(s: string, p: string, i: int) {
    0 <= i && i + |p| <= |s| && s[i..i + |p|] == p
  }

  /** Python's `p in s`. */
  predicate Contains(s: string, p: string)
    decreases |s|
  {
    |p| <= |s| && (s[..|p|] == p || Contains(s[1..], p))
  }

  /** Python's `s.startswith(p)`. */
  predicate StartsWith(s: string, p: string) {
    |p| <= |s| && s[..|p|] == p
  }

  /** `p in s` holds exactly when `p` occurs somewhere in `s`. */
  lemma {:induction false} ContainsIff(s: string, p: string)
    ensures Contains(s, p) <==> exists i :: OccursAt(s, p, i)
    decreases |s|
  {
    if |p| <= |s| {
      if s[..|p|] == p {
        assert OccursAt(s, p, 0);
      } else {
        ContainsIff(s[1..], p);
        if i :| OccursAt(s, p, i) {
          assert i != 0;
          assert OccursAt(s[1..], p, i - 1);
        }
        if Contains(s[1..], p) {
          var i :| OccursAt(s[1..], p, i);
          assert OccursAt(s, p, i + 1);
        }
      }
    }
  }

  lemma ContainsAt(s: string, p: string, i: int)
    requires OccursAt(s, p, i)
    ensures Contains(s, p)
  {
    ContainsIff(s, p);
  }

  /** Containment is transitive: a phrase inside a phrase of `s` is inside `s`. */
  lemma ContainsTransitive(s: string, q: string, p: string)
    requires Contains(s, q) && Contains(q, p)
    ensures Contains(s, p)
  {
    ContainsIff(s, q);
    ContainsIff(q, p);
    var i :| OccursAt(s, q, i);
    var j :| OccursAt(q, p, j);
    assert q == s[i..i + |q|];
    var a, b := s[i..i + |q|][j..j + |p|], s[i + j..i + j + |p|];
    assert |a| == |b| == |p|;
    forall k | 0 <= k < |p| ensures a[k] == b[k] {
      assert a[k] == s[i + j + k];
    }
    assert a == b;
    ContainsAt(s, p, i + j);
  }

  /** A phrase with a character that the text lacks does not occur in the text. */
  lemma NotContainsByChar(s: string, p: string, c: char)
    requires c in p && c !in s
    ensures !Contains(s, p)
  {
    ContainsIff(s, p);
  }

  /** The empty string is found in every string, as `"" in s` is in Python. */
  lemma ContainsEmpty(s: string)
    ensures Contains(s, "")
  {
  }

  /** The first index at which `p` occurs in `s`, as Python's `s.find(p)` (None for -1). */
  function Find(s: string, p: string): (r: Option<nat>)
    ensures r.Some? ==> OccursAt(s, p, r.value)
    ensures forall j :: 0 <= j && (r.None? || j < r.value) ==> !OccursAt(s, p, j)
    decreases |s|
  {
    if |p| > |s| then None
    else if s[..|p|] == p then Some(0)
    else
      var rest := Find(s[1..], p);
      assert forall j :: 1 <= j ==> (OccursAt(s, p, j) <==> OccursAt(s[1..], p, j - 1));
      match rest
      case None => None
      case Some(i) => Some(i + 1)
  }

  lemma FindContains(s: string, p: string)
    ensures Find(s, p).Some? <==> Contains(s, p)
  {
    ContainsIff(s, p);
  }

  /**
   * A tag whose first character occurs nowhere else in it is found right after a prefix that
   * lacks it: no occurrence can start inside the prefix and run into the tag.
   */
  lemma FindAfterPrefix(a: string, p: string, rest: string)
    requires p != [] && p[0] !in p[1..]
    requires !Contains(a, p)
    ensures Find(a + p + rest, p) == Some(|a|)
  {
    var s := a + p + rest;
    assert s[|a|..|a| + |p|] == p;
    ContainsIff(a, p);
    forall j | 0 <= j < |a| ensures !OccursAt(s, p, j) {
      if j + |p| <= |a| {
        assert !OccursAt(a, p, j);
        assert a[j..j + |p|] == s[j..j + |p|];
      } else {
        var k := |a| - j;
        assert p[1..][k - 1] == p[k];
        assert s[j..j + |p|][k] == s[|a|] == p[0] != p[k];
      }
    }
    assert OccursAt(s, p, |a|);
    var r := Find(s, p);
    assert r.Some? && r.value <= |a|;
  }

  /** Python's `s.split(sep)[0]`: the text before the first occurrence of `sep`. */
  function SplitFirst(s: string, sep: string): (r: string)
    ensures |r| <= |s| && r == s[..|r|]
    ensures !Contains(s, sep) ==> r == s
  {
    FindContains(s, sep);
    match Find(s, sep)
    case None => s
    case Some(i) => s[..i]
  }

  /** Python's `s.split(sep)[-1]`: the text after the last split point, searching left to right. */
  function SplitLast(s: string, sep: string): (r: string)
    requires sep != []
    ensures |r| <= |s| && r == s[|s| - |r|..]
    ensures !Contains(r, sep)
    ensures !Contains(s, sep) ==> r == s
    decreases |s|
  {
    FindContains(s, sep);
    match Find(s, sep)
    case None => s
    case Some(i) => SplitLast(s[i + |sep|..], sep)
  }

  /** After a one-character separator, a tail without that character is the last piece. */
  lemma {:induction false} SplitLastAfter(a: string, b: string, c: char)
    requires c !in b
    ensures SplitLast(a + [c] + b, [c]) == b
    decreases |a|
  {
    var s := a + [c] + b;
    assert OccursAt(s, [c], |a|);
    FindContains(s, [c]);
    var i := Find(s, [c]).value;
    assert i <= |a|;
    if i == |a| {
      assert s[i + 1..] == b;
      NotContainsByChar(b, [c], c);
    } else {
      assert s[i + 1..] == a[i + 1..] + [c] + b;
      SplitLastAfter(a[i + 1..], b, c);
    }
  }

  /** Python's `s.split(sep, 1)` when `sep in s`: the text before and after the first `sep`. */
  function Partition(s: string, sep: string): (r: (string, string))
    requires sep != [] && Contains(s, sep)
    ensures r.0 + sep + r.1 == s
    ensures !Contains(r.0, sep)
  {
    FindContains(s, sep);
    var i := Find(s, sep).value;
    PartitionAt(s, sep, i);
    (s[..i], s[i + |sep|..])
  }

  lemma PartitionAt(s: string, sep: string, i: nat)
    requires sep != [] && Find(s, sep) == Some(i)
    ensures i + |sep| <= |s| && s[..i] + sep + s[i + |sep|..] == s
    ensures !Contains(s[..i], sep)
  {
    var f := Find(s, sep);
    assert OccursAt(s, sep, i);
    var t := s[..i] + sep + s[i + |sep|..];
    assert |t| == |s|;
    forall k | 0 <= k < |s| ensures t[k] == s[k] {
      if k < i {
      } else if k < i + |sep| {
        assert t[k] == sep[k - i];
      } else {
      }
    }
    assert t == s;
    NoEarlierOccurrence(s, sep, i);
  }

  lemma NoEarlierOccurrence(s: string, sep: string, i: nat)
    requires sep != [] && i <= |s|
    requires forall j :: 0 <= j < i ==> !OccursAt(s, sep, j)
    ensures !Contains(s[..i], sep)
  {
    ContainsIff(s[..i], sep);
    forall j | OccursAt(s[..i], sep, j) ensures j < i && OccursAt(s, sep, j) {
      assert s[..i][j..j + |sep|] == s[j..j + |sep|];
    }
  }

  /** Python's `s.split(sep)` for a non-empty separator. */
  function SplitAll(s: string, sep: string): (r: seq<string>)
    requires sep != []
    ensures |r| >= 1
    decreases |s|
  {
    match Find(s, sep)
    case None => [s]
    case Some(i) => [s[..i]] + SplitAll(s[i + |sep|..], sep)
  }

  /** Python's `sep.join(parts)`. */
  function Join(parts: seq<string>, sep: string): string
    decreases |parts|
  {
    if |parts| == 0 then ""
    else if |parts| == 1 then parts[0]
    else parts[0] + sep + Join(parts[1..], sep)
  }

  /** Python's `s[:n]`. */
  function Take(s: string, n: nat): (r: string)
    ensures |r| == if |s| <= n then |s| else n
    ensures r == s[..|r|]
  {
    if |s| <= n then s else s[..n]
  }

  // ------------------------------------------------------------------
  // Collapsing runs of characters (`re.sub(r'X+', ' ', s)`)
  // ------------------------------------------------------------------

  /** The suffix of `s` after its leading run of characters of the class. */
  function SkipRun(s: string, inClass: char -> bool): (r: string)
    ensures |r| <= |s| && r == s[|s| - |r|..]
    ensures r == [] || !inClass(r[0])
    decreases |s|
  {
    if s != [] && inClass(s[0]) then SkipRun(s[1..], inClass) else s
  }

  /** `re.sub(P + '+', ' ', s)`: every maximal run of characters of the class becomes one space. */
  function CollapseRuns(s: string, inClass: char -> bool): (r: string)
    ensures (r == []) == (s == [])
    ensures s != [] && !inClass(s[0]) ==> r[0] == s[0]
    ensures forall i :: 0 <= i < |r| && inClass(r[i]) ==> r[i] == ' '
    ensures forall i, j :: 0 <= i < |r| && 0 <= j < |r| && j == i + 1 && inClass(r[i]) ==> !inClass(r[j])
    decreases |s|
  {
    if s == [] then []
    else if inClass(s[0]) then
      var rest := SkipRun(s, inClass);
      " " + CollapseRuns(rest, inClass)
    else
      [s[0]] + CollapseRuns(s[1..], inClass)
  }

  // ------------------------------------------------------------------
  // Decimal integers
  // ------------------------------------------------------------------

  predicate AllDigits(s: string) {
    forall i :: 0 <= i < |s| ==> IsDigit(s[i])
  }

  /** Python's `s.isdigit()` for ASCII digits. */
  predicate IsDigitString(s: string) {
    s != [] && AllDigits(s)
  }

  function DigitChar(d: nat): (c: char)
    requires d < 10
    ensures IsDigit(c)
  {
    ('0' as int + d) as char
  }

  /** The value of a string of decimal digits. */
  function DigitsValue(s: string): nat
    requires AllDigits(s)
    decreases |s|
  {
    if s == [] then 0 else DigitsValue(s[..|s| - 1]) * 10 + (s[|s| - 1] as int - '0' as int)
  }

  /** Python's `str(n)` for a non-negative integer. */
  function NatToString(n: nat): (r: string)
    ensures IsDigitString(r)
    ensures r[0] == '0' ==> n == 0
    decreases n
  {
    if n < 10 then [DigitChar(n)] else NatToString(n / 10) + [DigitChar(n % 10)]
  }

  /** Python's `str(n)`. */
  function IntToString(n: int): string {
    if n < 0 then "-" + NatToString(-n) else NatToString(n)
  }

  /** Reading back the digits of `str(n)` gives `n`. */
  lemma {:induction false} NatToStringValue(n: nat)
    ensures DigitsValue(NatToString(n)) == n
    decreases n
  {
    if n >= 10 {
      var s := NatToString(n);
      assert s[..|s| - 1] == NatToString(n / 10);
      NatToStringValue(n / 10);
    }
  }

  /**
   * Python's `int(s)` on a string: optional surrounding whitespace, an optional sign and
   * ASCII digits; None where Python raises ValueError.
   */
  function ParseInt(s: string): Option<int> {
    var t := Strip(s);
    if t != [] && (t[0] == '-' || t[0] == '+') then
      if IsDigitString(t[1..]) then
        var v: int := DigitsValue(t[1..]);
        Some(if t[0] == '-' then -v else v)
      else None
    else if IsDigitString(t) then Some(DigitsValue(t))
    else None
  }

  /** Parsing `str(n)` with `int(...)` gives back `n`. */
  lemma IntToStringRoundTrip(n: int)
    ensures ParseInt(IntToString(n)) == Some(n)
  {
    var s := IntToString(n);
    var m: nat := if n < 0 then -n else n;
    NatToStringValue(m);
    assert s[0] != ' ' && !IsSpace(s[0]);
    assert !IsSpace(s[|s| - 1]) by {
      assert IsDigit(NatToString(m)[|NatToString(m)| - 1]);
    }
    StripNoEdgeSpace(s);
    if n < 0 {
      assert s[1..] == NatToString(m);
    }
  }

  /** Joining the pieces of `s.split(sep)` with `sep` gives `s` back. */
  lemma {:induction false} SplitAllJoin(s: string, sep: string)
    requires sep != []
    ensures Join(SplitAll(s, sep), sep) == s
    decreases |s|
  {
    match Find(s, sep)
    case None =>
    case Some(i) =>
      var rest := s[i + |sep|..];
      SplitAllJoin(rest, sep);
      PartitionAt(s, sep, i);
      var tail := SplitAll(rest, sep);
      assert SplitAll(s, sep) == [s[..i]] + tail;
      assert ([s[..i]] + tail)[1..] == tail;
  }
}
