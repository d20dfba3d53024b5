/**
 * The part of Python's `json` module the store uses: `json.dumps(..., ensure_ascii=False)` of a
 * list of strings and of the scalar settings values, and `json.loads` of such texts.
 */
module Json {
  import opened Wrappers
  import opened Text

  /** A Python scalar as a setting value: an int, a bool, a str or None. */
  datatype Scalar = PyInt(i: int) | PyBool(b: bool) | PyStr(s: string) | PyNone

  // ------------------------------------------------------------------
  // Encoding
  // ------------------------------------------------------------------

  function HexDigit(d: nat): (c: char)
    requires d < 16
  {
    if d < 10 then ('0' as int + d) as char else ('a' as int + d - 10) as char
  }

  /** How `json.dumps(..., ensure_ascii=False)` writes one character inside a string literal. */
  function EscapeChar(c: char): (r: string)
    ensures |r| >= 1
  {
    if c == '"' then "\\\""
    else if c == '\\' then "\\\\"
    else if c == '\n' then "\\n"
    else if c == '\r' then "\\r"
    else if c == '\t' then "\\t"
    else if c == '\U{8}' then "\\b"
    else if c == '\U{c}' then "\\f"
    else if c < ' ' then "\\u00" + [HexDigit(c as int / 16), HexDigit(c as int % 16)]
    else [c]
  }

  function Escape(s: string): string
    decreases |s|
  {
    if s == [] then [] else EscapeChar(s[0]) + Escape(s[1..])
  }

  /** `json.dumps(s)` for a str. */
  function Quote(s: string): string {
    "\"" + Escape(s) + "\""
  }

  /** `", ".join(json.dumps(x) for x in xs)`. */
  function QuotedItems(xs: seq<string>): string
    requires xs != []
    decreases |xs|
  {
    if |xs| == 1 then Quote(xs[0]) else Quote(xs[0]) + ", " + QuotedItems(xs[1..])
  }

  /** `json.dumps(xs, ensure_ascii=False)` for a list of strings. */
  function DumpStrings(xs: seq<string>): string {
    if xs == [] then "[]" else "[" + QuotedItems(xs) + "]"
  }

  /** `json.dumps(v, ensure_ascii=False)` for a scalar. */
  function DumpScalar(v: Scalar): string {
    match v
    case PyInt(i) => IntToString(i)
    case PyBool(b) => if b then "true" else "false"
    case PyStr(s) => Quote(s)
    case PyNone => "null"
  }

  // ------------------------------------------------------------------
  // Decoding
  // ------------------------------------------------------------------

  predicate IsJsonSpace(c: char) {
    c == ' ' || c == '\t' || c == '\n' || c == '\r'
  }

  function SkipSpace(s: string): (r: string)
    ensures |r| <= |s|
    ensures r == [] || !IsJsonSpace(r[0])
    decreases |s|
  {
    if s != [] && IsJsonSpace(s[0]) then SkipSpace(s[1..]) else s
  }

  function HexValue(c: char): Option<nat> {
    if '0' <= c <= '9' then Some(c as int - '0' as int)
    else if 'a' <= c <= 'f' then Some(c as int - 'a' as int + 10)
    else if 'A' <= c <= 'F' then Some(c as int - 'A' as int + 10)
    else None
  }

  /** The code point written by four hexadecimal digits, if they are four such digits. */
  function Hex4(s: string): Option<nat>
    requires |s| == 4
  {
    match (HexValue(s[0]), HexValue(s[1]), HexValue(s[2]), HexValue(s[3]))
    case (Some(a), Some(b), Some(c), Some(d)) => Some(((a * 16 + b) * 16 + c) * 16 + d)
    case _ => None
  }

  /** The character and the length of the escape sequence that starts `s` (after a backslash). */
  function Unescape(s: string): (r: Option<(char, nat)>)
    ensures r.Some? ==> 1 <= r.value.1 <= |s|
  {
    if s == [] then None
    else if s[0] == '"' then Some(('"', 1))
    else if s[0] == '\\' then Some(('\\', 1))
    else if s[0] == '/' then Some(('/', 1))
    else if s[0] == 'b' then Some(('\U{8}', 1))
    else if s[0] == 'f' then Some(('\U{c}', 1))
    else if s[0] == 'n' then Some(('\n', 1))
    else if s[0] == 'r' then Some(('\r', 1))
    else if s[0] == 't' then Some(('\t', 1))
    else if s[0] == 'u' && |s| >= 5 then
      match Hex4(s[1..5])
      case Some(n) => if n < 0xD800 then Some((n as char, 5)) else if 0xE000 <= n then Some((n as char, 5)) else None
      case None => None
    else None
  }

  /**
   * Reads the rest of a string literal whose opening quote has been consumed: the decoded
   * text and what follows the closing quote.
   */
  function ParseStringBody(s: string): (r: Option<(string, string)>)
    ensures r.Some? ==> |r.value.1| < |s|
    decreases |s|
  {
    if s == [] then None
    else if s[0] == '"' then Some(([], s[1..]))
    else if s[0] == '\\' then
      match Unescape(s[1..])
      case None => None
      case Some((c, n)) =>
        match ParseStringBody(s[1 + n..])
        case None => None
        case Some((v, rest)) => Some(([c] + v, rest))
    else if s[0] < ' ' then None
    else
      match ParseStringBody(s[1..])
      case None => None
      case Some((v, rest)) => Some(([s[0]] + v, rest))
  }

  /** Reads `"..." (, "...")* ]` followed by nothing but white space. */
  function ParseItems(s: string): Option<seq<string>>
    decreases |s|
  {
    if s == [] || s[0] != '"' then None
    else
      match ParseStringBody(s[1..])
      case None => None
      case Some((v, rest)) =>
        var r := SkipSpace(rest);
        if r == [] then None
        else if r[0] == ']' then (if SkipSpace(r[1..]) == [] then Some([v]) else None)
        else if r[0] == ',' then
          match ParseItems(SkipSpace(r[1..]))
          case None => None
          case Some(vs) => Some([v] + vs)
        else None
  }

  /** `json.loads(s)` where the result must be a list of strings; None where `json.loads` raises. */
  function LoadStrings(s: string): Option<seq<string>> {
    var t := SkipSpace(s);
    if t == [] || t[0] != '[' then None
    else
      var u := SkipSpace(t[1..]);
      if u != [] && u[0] == ']' then (if SkipSpace(u[1..]) == [] then Some([]) else None)
      else ParseItems(u)
  }

  /** The text without JSON white space at either end. */
  function TrimSpace(s: string): (r: string)
    ensures |r| <= |s|
    decreases |s|
  {
    var t := SkipSpace(s);
    if t != [] && IsJsonSpace(t[|t| - 1]) then TrimSpace(t[..|t| - 1]) else t
  }

  /** A JSON number without fraction or exponent: `-?(0|[1-9][0-9]*)`. */
  predicate IsJsonInteger(s: string) {
    var digits := if s != [] && s[0] == '-' then s[1..] else s;
    IsDigitString(digits) && (digits[0] != '0' || |digits| == 1)
  }

  /** `json.loads(s)` where the result must be a scalar; None where `json.loads` raises. */
  function LoadScalar(s: string): Option<Scalar> {
    LoadTrimmed(TrimSpace(s))
  }

  /** A scalar value from its text without surrounding white space. */
  function LoadTrimmed(t: string): Option<Scalar> {
    if t == "true" then Some(PyBool(true))
    else if t == "false" then Some(PyBool(false))
    else if t == "null" then Some(PyNone)
    else if t != [] && t[0] == '"' then LoadQuoted(t[1..])
    else if IsJsonInteger(t) then Some(PyInt(JsonIntValue(t)))
    else None
  }

  /** The string whose literal is `"` followed by `body`, when nothing follows its closing quote. */
  function LoadQuoted(body: string): Option<Scalar> {
    match ParseStringBody(body)
    case Some((v, rest)) => if rest == [] then Some(PyStr(v)) else None
    case None => None
  }

  /** The value of a JSON integer text. */
  function JsonIntValue(t: string): int
    requires IsJsonInteger(t)
  {
    if t[0] == '-' then -(DigitsValue(t[1..]) as int) else DigitsValue(t)
  }

  // ------------------------------------------------------------------
  // Round trips
  // ------------------------------------------------------------------

  lemma HexDigitValue(d: nat)
    requires d < 16
    ensures HexValue(HexDigit(d)) == Some(d)
  {
  }

  /** An escaped character is read back as itself, whatever follows. */
  lemma EscapeCharRoundTrip(c: char, rest: string)
    ensures ParseStringBody(EscapeChar(c) + rest) ==
      match ParseStringBody(rest)
      case None => None
      case Some((v, r)) => Some(([c] + v, r))
  {
    var e := EscapeChar(c);
    var s := e + rest;
    if c == '"' || c == '\\' || c == '\n' || c == '\r' || c == '\t' || c == '\U{8}' || c == '\U{c}' {
      assert s[0] == '\\' && s[1..][0] == e[1];
      assert s[2..] == rest;
    } else if c < ' ' {
      var hi, lo := c as int / 16, c as int % 16;
      HexDigitValue(hi);
      HexDigitValue(lo);
      assert s[1..][1..5] == ['0', '0', HexDigit(hi), HexDigit(lo)];
      assert Hex4(s[1..][1..5]) == Some(c as int);
      assert s[6..] == rest;
    } else {
      assert s[1..] == rest;
    }
  }

  lemma {:induction false} EscapeRoundTrip(x: string, rest: string)
    ensures ParseStringBody(Escape(x) + "\"" + rest) == Some((x, rest))
    decreases |x|
  {
    if x == [] {
      assert Escape(x) + "\"" + rest == "\"" + rest;
    } else {
      var tail := Escape(x[1..]) + "\"" + rest;
      assert Escape(x) + "\"" + rest == EscapeChar(x[0]) + tail;
      EscapeCharRoundTrip(x[0], tail);
      EscapeRoundTrip(x[1..], rest);
      assert [x[0]] + x[1..] == x;
    }
  }

  lemma QuoteRoundTrip(x: string, rest: string)
    ensures var q := Quote(x) + rest; q[0] == '"' && ParseStringBody(q[1..]) == Some((x, rest))
  {
    var q := Quote(x) + rest;
    assert q[1..] == Escape(x) + "\"" + rest;
    EscapeRoundTrip(x, rest);
  }

  /** The items of a one-element list, then the closing bracket. */
  lemma ParseItemsLast(x: string)
    ensures ParseItems(Quote(x) + "]") == Some([x])
  {
    QuoteRoundTrip(x, "]");
    assert SkipSpace("]") == "]";
    assert "]"[1..] == [];
  }

  /** An item, the separator `, ` and more items. */
  lemma ParseItemsCons(x: string, tail: string)
    requires tail != [] && tail[0] == '"'
    ensures ParseItems(Quote(x) + ", " + tail) ==
      match ParseItems(tail)
      case None => None
      case Some(vs) => Some([x] + vs)
  {
    var after := ", " + tail;
    var q := Quote(x) + after;
    assert Quote(x) + ", " + tail == q;
    assert SkipSpace(after) == after && after[0] == ',';
    assert SkipSpace(after[1..]) == tail by {
      assert after[1..] == " " + tail;
      assert (" " + tail)[1..] == tail;
    }
    QuoteRoundTrip(x, after);
    ParseItemsAfter(q, x, after);
  }

  /** Items after a string that ends in a comma: that string, then the items after the comma. */
  lemma ParseItemsAfter(q: string, x: string, after: string)
    requires q != [] && q[0] == '"' && ParseStringBody(q[1..]) == Some((x, after))
    requires after != [] && after[0] == ',' && SkipSpace(after) == after
    ensures ParseItems(q) ==
      match ParseItems(SkipSpace(after[1..]))
      case None => None
      case Some(vs) => Some([x] + vs)
  {
  }

  lemma QuotedItemsStart(xs: seq<string>)
    requires xs != []
    ensures QuotedItems(xs) != [] && QuotedItems(xs)[0] == '"'
  {
  }

  lemma {:induction false} QuotedItemsRoundTrip(xs: seq<string>)
    requires xs != []
    ensures ParseItems(QuotedItems(xs) + "]") == Some(xs)
    decreases |xs|
  {
    if |xs| == 1 {
      ParseItemsLast(xs[0]);
      assert xs == [xs[0]];
    } else {
      var tail := QuotedItems(xs[1..]) + "]";
      assert QuotedItems(xs) + "]" == Quote(xs[0]) + ", " + tail;
      QuotedItemsStart(xs[1..]);
      ParseItemsCons(xs[0], tail);
      QuotedItemsRoundTrip(xs[1..]);
      assert [xs[0]] + xs[1..] == xs;
    }
  }

  /** `json.loads(json.dumps(xs))` gives back the same list, in the same order. */
  lemma DumpStringsRoundTrip(xs: seq<string>)
    ensures LoadStrings(DumpStrings(xs)) == Some(xs)
  {
    var d := DumpStrings(xs);
    if xs == [] {
      assert d[1..] == "]";
      assert SkipSpace(d[1..][1..]) == [];
    } else {
      var u := QuotedItems(xs) + "]";
      assert d == "[" + u && d[1..] == u;
      QuotedItemsStart(xs);
      LoadStringsItems(d, u);
      QuotedItemsRoundTrip(xs);
    }
  }

  /** A bracket followed by a string item is read as a list of items. */
  lemma LoadStringsItems(d: string, u: string)
    requires d != [] && d[0] == '[' && d[1..] == u && u != [] && u[0] == '"'
    ensures LoadStrings(d) == ParseItems(u)
  {
  }

  lemma TrimSpaceNoEdge(s: string)
    requires s != [] && !IsJsonSpace(s[0]) && !IsJsonSpace(s[|s| - 1])
    ensures TrimSpace(s) == s
  {
  }

  /** Reading back what `json.dumps` wrote for a scalar gives the same scalar. */
  lemma DumpScalarRoundTrip(v: Scalar)
    ensures LoadScalar(DumpScalar(v)) == Some(v)
  {
    match v
    case PyInt(n) => DumpIntRoundTrip(n);
    case PyBool(b) =>
    case PyStr(x) => DumpStrRoundTrip(x);
    case PyNone =>
  }

  lemma DumpIntRoundTrip(n: int)
    ensures LoadScalar(IntToString(n)) == Some(PyInt(n))
  {
    var d := IntToString(n);
    var m: nat := if n < 0 then -n else n;
    var digits := NatToString(m);
    NatToStringValue(m);
    assert IsDigit(digits[|digits| - 1]);
    assert d == (if n < 0 then "-" else "") + digits;
    assert d[|d| - 1] == digits[|digits| - 1];
    TrimSpaceNoEdge(d);
    if n < 0 {
      assert d[1..] == digits;
    }
    assert n >= 0 ==> d == digits;
    assert digits[0] != '0' || |digits| == 1;
    LoadIntText(d, n < 0, digits, m);
  }

  /** A trimmed integer text is read as its value. */
  lemma LoadIntText(d: string, negative: bool, digits: string, m: nat)
    requires IsDigitString(digits) && DigitsValue(digits) == m
    requires digits[0] != '0' || |digits| == 1
    requires negative ==> d != [] && d[0] == '-' && d[1..] == digits
    requires !negative ==> d == digits
    ensures LoadTrimmed(d) == Some(PyInt(if negative then -(m as int) else m))
  {
    assert d != "true" && d != "false" && d != "null" by {
      assert d[0] == '-' || IsDigit(d[0]);
      assert "true"[0] == 't' && "false"[0] == 'f' && "null"[0] == 'n';
    }
    assert d[0] != '"';
    assert IsJsonInteger(d);
    assert JsonIntValue(d) == if negative then -(m as int) else m;
  }

  lemma DumpStrRoundTrip(x: string)
    ensures LoadScalar(Quote(x)) == Some(PyStr(x))
  {
    var d := Quote(x);
    QuoteRoundTrip(x, "");
    assert d + "" == d;
    assert d[|d| - 1] == '"';
    TrimSpaceNoEdge(d);
    assert LoadQuoted(d[1..]) == Some(PyStr(x));
  }
}
