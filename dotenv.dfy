/**
 * The launcher's `check_environment` (main.py): it reads `.env` line by line into the process
 * environment, then requires `API_ID` and `API_HASH` to be set and non-empty, showing each
 * present value masked.
 */
module DotEnv {
  import opened Wrappers
  import opened Text

  // ------------------------------------------------------------------
  // One line of .env
  // ------------------------------------------------------------------

  /**
   * One stripped `.env` line: blank lines, lines starting with `#` and lines without `=` are
   * skipped; otherwise the line splits at its first `=`, anything from the first `#` of the
   * value on is a comment, and key and value are both stripped.
   */
  function ParseEnvLine(raw: string): (r: Option<(string, string)>)
    ensures r.None? <==> Strip(raw) == [] || StartsWith(Strip(raw), "#") || !Contains(Strip(raw), "=")
    ensures r.Some? ==> Trimmed(r.value.0) && '=' !in r.value.0
    ensures r.Some? ==> Trimmed(r.value.1) && '#' !in r.value.1
  {
    var line := Strip(raw);
    if line != [] && !StartsWith(line, "#") && Contains(line, "=") then Some(KeyValue(line))
    else None
  }

  /** The key and value of a line holding `=`: split at the first `=`, comment cut, both stripped. */
  function KeyValue(line: string): (r: (string, string))
    requires Contains(line, "=")
    ensures Trimmed(r.0) && '=' !in r.0
    ensures Trimmed(r.1) && '#' !in r.1
  {
    var (key, value) := Partition(line, "=");
    var v := if Contains(value, "#") then Strip(SplitFirst(value, "#")) else value;
    StrippedKey(key);
    CommentCut(value);
    StripIsSlice(key);
    StripIsSlice(v);
    (Strip(key), Strip(v))
  }

  /** No whitespace at either end: what `strip()` leaves. */
  predicate Trimmed(t: string) {
    t == [] || (!IsSpace(t[0]) && !IsSpace(t[|t| - 1]))
  }

  /** A character of a string is an occurrence of it as a one-character substring. */
  lemma CharContains(s: string, c: char)
    requires c in s
    ensures Contains(s, [c])
  {
    var i :| 0 <= i < |s| && s[i] == c;
    assert s[i..i + 1] == [c];
    ContainsAt(s, [c], i);
  }

  /** The text before the first `=` holds no `=`, nor does its stripped form. */
  lemma StrippedKey(key: string)
    requires !Contains(key, "=")
    ensures '=' !in Strip(key)
  {
    if '=' in key {
      CharContains(key, '=');
    }
    StripIsSlice(key);
  }

  /** Cutting a value at its first `#` leaves no `#` in it, before or after stripping. */
  lemma CommentCut(value: string)
    ensures var v := if Contains(value, "#") then Strip(SplitFirst(value, "#")) else value;
      '#' !in Strip(v)
  {
    FindContains(value, "#");
    var v := if Contains(value, "#") then Strip(SplitFirst(value, "#")) else value;
    if Contains(value, "#") {
      var i := Find(value, "#").value;
      NoEarlierOccurrence(value, "#", i);
      var head := SplitFirst(value, "#");
      assert head == value[..i];
      if '#' in head {
        CharContains(head, '#');
      }
      StripIsSlice(head);
      StripIsSlice(v);
    } else {
      if '#' in value {
        CharContains(value, '#');
      }
      StripIsSlice(value);
    }
  }

  /** A plain key, `=`, and a stripped value form a line that stripping leaves as it is. */
  lemma EnvLineStripped(key: string, value: string)
    requires key != [] && !IsSpace(key[0])
    requires value == [] || !IsSpace(value[|value| - 1])
    ensures Strip(key + "=" + value) == key + "=" + value
  {
    var s := key + "=" + value;
    var last := if value == [] then '=' else value[|value| - 1];
    assert s[0] == key[0];
    assert s[|s| - 1] == last;
    StripNoEdgeSpace(s);
  }

  /** The first `=` of `key=value` is the one after the key when the key has none. */
  lemma EnvLineSplit(key: string, value: string)
    requires '=' !in key
    ensures Find(key + "=" + value, "=") == Some(|key|)
  {
    var s := key + "=" + value;
    assert s[|key|..|key| + 1] == "=";
    assert OccursAt(s, "=", |key|);
    forall j | 0 <= j < |key| ensures !OccursAt(s, "=", j) {
      assert s[j..j + 1] == [key[j]];
    }
  }

  /**
   * Writing `key=value` with a plain key and a comment-free value reads back as that pair; the
   * value may itself contain `=`, since only the first one splits.
   */
  lemma EnvLineRoundTrip(key: string, value: string)
    requires key != [] && Trimmed(key) && '=' !in key && key[0] != '#'
    requires Trimmed(value) && '#' !in value
    ensures ParseEnvLine(key + "=" + value) == Some((key, value))
  {
    var s := key + "=" + value;
    assert s[0] == key[0];
    NotHashFirst(s);
    EnvLineStripped(key, value);
    EnvLinePartition(key, value);
    KeyValueOf(key, value);
  }

  /**
   * A line `k=v#c` whose key is not blank and does not start with `#` reads as the stripped
   * key and the stripped text before the comment, whatever whitespace surrounds the parts.
   */
  lemma EnvLineComment(k: string, v: string, c: string)
    requires '=' !in k && '#' !in v
    requires Strip(k) != [] && Strip(k)[0] != '#'
    ensures ParseEnvLine(k + "=" + v + "#" + c) == Some((Strip(k), Strip(v)))
  {
    var key, rest := CommentLine(k, v, c);
    ParseStripped(k + "=" + v + "#" + c, key, v + "#" + rest);
    ValueBeforeComment(v, rest);
    StripIdempotent(v);
  }

  /**
   * A line `k=v` without a comment reads as its stripped key and stripped value, whatever
   * whitespace surrounds them; the value may be blank.
   */
  lemma EnvLinePlain(k: string, v: string)
    requires '=' !in k && '#' !in v
    requires Strip(k) != [] && Strip(k)[0] != '#'
    ensures ParseEnvLine(k + "=" + v) == Some((Strip(k), Strip(v)))
  {
    var key, value := PlainLine(k, v);
    ParseStripped(k + "=" + v, key, value);
    NotContainsByChar(value, "#", '#');
  }

  /** The stripped form of `k=v#c`: the key without its leading whitespace, `=`, `v`, `#`, the rest. */
  lemma CommentLine(k: string, v: string, c: string) returns (key: string, rest: string)
    requires '=' !in k && Strip(k) != []
    ensures Strip(k + "=" + v + "#" + c) == key + "=" + (v + "#" + rest)
    ensures key != [] && key[0] == Strip(k)[0] && '=' !in key && Strip(key) == Strip(k)
  {
    var pk;
    pk, key := KeyParts(k);
    var pc, sc, qc := StripSplit3(c);
    rest := CommentLineOf(pk, key, v, pc, sc, qc);
  }

  /** The stripped form of `k=v`: the key without its leading whitespace, `=`, `v` without its trailing whitespace. */
  lemma PlainLine(k: string, v: string) returns (key: string, value: string)
    requires '=' !in k && '#' !in v && Strip(k) != []
    ensures Strip(k + "=" + v) == key + "=" + value
    ensures key != [] && key[0] == Strip(k)[0] && '=' !in key && Strip(key) == Strip(k)
    ensures '#' !in value && Strip(value) == Strip(v)
  {
    var pk;
    pk, key := KeyParts(k);
    var pv, sv, qv := StripSplit3(v);
    value := PlainLineOf(pk, key, pv, sv, qv);
    CharsOfPrefix(v, value, '#');
  }

  /** `CommentLine` for a line given as its pieces. */
  lemma CommentLineOf(pk: string, key: string, v: string, pc: string, sc: string, qc: string) returns (rest: string)
    requires forall i :: 0 <= i < |pk| ==> IsSpace(pk[i])
    requires forall i :: 0 <= i < |pc| ==> IsSpace(pc[i])
    requires forall i :: 0 <= i < |qc| ==> IsSpace(qc[i])
    requires key != [] && !IsSpace(key[0])
    requires sc == [] || (!IsSpace(sc[0]) && !IsSpace(sc[|sc| - 1]))
    ensures Strip((pk + key) + "=" + v + "#" + (pc + sc + qc)) == key + "=" + (v + "#" + rest)
  {
    RegroupComment(pk, key, "=", v, "#", pc, sc, qc);
    if sc == [] {
      rest := [];
      SpacesJoin(pc, qc);
      assert pc + qc == pc + sc + qc;
      LineStrip(pk, key + "=" + (v + "#" + rest), pc + sc + qc, '#');
    } else {
      rest := pc + sc;
      LineStrip(pk, key + "=" + (v + "#" + rest), qc, sc[|sc| - 1]);
    }
  }

  /** `PlainLine` for a line given as its pieces. */
  lemma PlainLineOf(pk: string, key: string, pv: string, sv: string, qv: string) returns (value: string)
    requires forall i :: 0 <= i < |pk| ==> IsSpace(pk[i])
    requires forall i :: 0 <= i < |pv| ==> IsSpace(pv[i])
    requires forall i :: 0 <= i < |qv| ==> IsSpace(qv[i])
    requires key != [] && !IsSpace(key[0])
    requires sv == [] || (!IsSpace(sv[0]) && !IsSpace(sv[|sv| - 1]))
    ensures Strip((pk + key) + "=" + (pv + sv + qv)) == key + "=" + value
    ensures |value| <= |pv + sv + qv| && value == (pv + sv + qv)[..|value|]
    ensures Strip(value) == sv
  {
    RegroupPlain(pk, key, "=", pv, sv, qv);
    if sv == [] {
      value := [];
      SpacesJoin(pv, qv);
      assert pv + qv == pv + sv + qv;
      LineStrip(pk, key + "=" + value, pv + sv + qv, '=');
      EmptyValue();
    } else {
      value := pv + sv;
      LineStrip(pk, key + "=" + value, qv, sv[|sv| - 1]);
      PlainValueStrip(pv, sv);
    }
  }

  /** A key split into its leading whitespace and the rest, whose strip is the key's strip. */
  lemma KeyParts(k: string) returns (pk: string, key: string)
    requires '=' !in k && Strip(k) != []
    ensures k == pk + key && forall i :: 0 <= i < |pk| ==> IsSpace(pk[i])
    ensures '=' !in key && key != [] && key[0] == Strip(k)[0] && Strip(key) == Strip(k)
  {
    var p, sk, q := StripSplit3(k);
    pk, key := p, sk + q;
    KeyTail(k, p, sk, q);
  }

  /** The stripped key followed by the key's trailing whitespace: no `=`, and it strips to the key. */
  lemma KeyTail(k: string, p: string, sk: string, q: string)
    requires k == p + sk + q && '=' !in k
    requires forall i :: 0 <= i < |q| ==> IsSpace(q[i])
    requires sk != [] && !IsSpace(sk[0]) && !IsSpace(sk[|sk| - 1])
    ensures k == p + (sk + q) && '=' !in sk + q && Strip(sk + q) == sk
  {
    KeyAfterSpaces(k, p, sk + q);
    StripUnique([], sk, q);
    assert [] + sk + q == sk + q;
  }

  /** A text split into leading whitespace, its stripped form and trailing whitespace. */
  lemma StripSplit3(s: string) returns (p: string, w: string, q: string)
    ensures s == p + w + q && w == Strip(s)
    ensures forall i :: 0 <= i < |p| ==> IsSpace(p[i])
    ensures forall i :: 0 <= i < |q| ==> IsSpace(q[i])
    ensures w == [] || (!IsSpace(w[0]) && !IsSpace(w[|w| - 1]))
  {
    p, q := StripSplit(s);
    w := Strip(s);
    if w != [] {
      StripEnds(s);
    }
  }

  /** A line `key=...` that starts with the key and ends in a non-space `last` strips to itself. */
  lemma LineStrip(p: string, t: string, q: string, last: char)
    requires forall i :: 0 <= i < |p| ==> IsSpace(p[i])
    requires forall i :: 0 <= i < |q| ==> IsSpace(q[i])
    requires t != [] && !IsSpace(t[0]) && t[|t| - 1] == last && !IsSpace(last)
    ensures Strip(p + t + q) == t
  {
    StripUnique(p, t, q);
  }

  /** A stripped line `key=value` with a plain key is read by splitting at that `=`. */
  lemma ParseStripped(raw: string, key: string, value: string)
    requires Strip(raw) == key + "=" + value
    requires key != [] && key[0] != '#' && !IsSpace(key[0]) && '=' !in key
    ensures Contains(key + "=" + value, "=")
    ensures ParseEnvLine(raw) == Some(KeyValue(key + "=" + value))
    ensures KeyValue(key + "=" + value) ==
      (Strip(key), Strip(if Contains(value, "#") then Strip(SplitFirst(value, "#")) else value))
  {
    var t := key + "=" + value;
    assert t[0] == key[0];
    NotHashFirst(t);
    EnvLinePartition(key, value);
  }

  /** A value `v#rest` with no `#` in `v` is cut to `v`. */
  lemma ValueBeforeComment(v: string, rest: string)
    requires '#' !in v
    ensures Contains(v + "#" + rest, "#") && SplitFirst(v + "#" + rest, "#") == v
  {
    NotContainsByChar(v, "#", '#');
    FindAfterPrefix(v, "#", rest);
    FindContains(v + "#" + rest, "#");
  }

  /** Stripping whitespace before a text without whitespace at its ends leaves the text. */
  lemma PlainValueStrip(p: string, w: string)
    requires forall i :: 0 <= i < |p| ==> IsSpace(p[i])
    requires w == [] || (!IsSpace(w[0]) && !IsSpace(w[|w| - 1]))
    ensures Strip(p + w) == w
  {
    StripUnique(p, w, []);
    assert p + w + [] == p + w;
  }

  /** `k=v` with `k` and `v` split into pieces, regrouped as the line and what stripping drops. */
  lemma RegroupPlain<T>(pk: seq<T>, key: seq<T>, eq: seq<T>, pv: seq<T>, sv: seq<T>, qv: seq<T>)
    ensures (pk + key) + eq + (pv + sv + qv) ==
      (if sv == [] then pk + (key + eq + []) + (pv + sv + qv) else pk + (key + eq + (pv + sv)) + qv)
    ensures pv + sv + qv == (pv + sv) + qv
  {
    if sv == [] {
      assert pv + sv + qv == pv + qv;
    }
  }

  /** `k=v#c` with `k` and `c` split into pieces, regrouped as the line and what stripping drops. */
  lemma RegroupComment<T>(pk: seq<T>, key: seq<T>, eq: seq<T>, v: seq<T>, h: seq<T>,
                          pc: seq<T>, sc: seq<T>, qc: seq<T>)
    ensures (pk + key) + eq + v + h + (pc + sc + qc) ==
      (if sc == [] then pk + (key + eq + (v + h + [])) + (pc + sc + qc) else pk + (key + eq + (v + h + (pc + sc))) + qc)
  {
    if sc == [] {
      assert pc + sc + qc == pc + qc;
    }
  }

  /** The empty value holds no comment and strips to itself. */
  lemma EmptyValue()
    ensures !Contains("", "#") && Strip("") == ""
  {
  }

  /** A character of a prefix is a character of the whole. */
  lemma CharsOfPrefix(s: string, pre: string, c: char)
    requires |pre| <= |s| && pre == s[..|pre|] && c !in s
    ensures c !in pre
  {
  }

  /** The part of a key after its leading whitespace holds no `=` when the key holds none. */
  lemma KeyAfterSpaces(k: string, pk: string, key: string)
    requires k == pk + key && '=' !in k
    ensures '=' !in key
  {
    forall i | 0 <= i < |key| ensures key[i] != '=' {
      assert key[i] == k[|pk| + i];
    }
  }

  lemma NotHashFirst(s: string)
    requires s != [] && s[0] != '#'
    ensures !StartsWith(s, "#")
  {
    assert s[..1] == [s[0]];
  }

  /** The key and value of `key=value` are the two parts, when they are plain. */
  lemma KeyValueOf(key: string, value: string)
    requires Trimmed(key) && '=' !in key
    requires Trimmed(value) && '#' !in value
    requires Contains(key + "=" + value, "=")
    ensures KeyValue(key + "=" + value) == (key, value)
  {
    EnvLinePartition(key, value);
    NotContainsByChar(value, "#", '#');
    StripNoEdgeSpace(key);
    StripNoEdgeSpace(value);
  }

  /** `key=value` splits at the `=` after the key. */
  lemma EnvLinePartition(key: string, value: string)
    requires '=' !in key
    ensures Contains(key + "=" + value, "=")
    ensures Partition(key + "=" + value, "=") == (key, value)
  {
    var s := key + "=" + value;
    EnvLineSplit(key, value);
    FindContains(s, "=");
    PartitionAt(s, "=", |key|);
    assert s[..|key|] == key;
    assert s[|key| + 1..] == value;
  }

  /** A line whose first character is `#` strips to a line that still starts with `#`. */
  lemma CommentStripped(line: string)
    requires line != [] && line[0] == '#'
    ensures Strip(line) != [] && StartsWith(Strip(line), "#")
  {
    assert !IsSpace(line[0]);
    assert LStrip(line) == line;
    var r := RStrip(line);
    assert r[0] == '#';
    assert r[..1] == "#";
  }

  /** A line that is only a comment, or has no `=`, is skipped. */
  lemma SkippedLines(comment: string, rest: string)
    requires '=' !in rest
    ensures ParseEnvLine("#" + comment) == None
    ensures ParseEnvLine(rest) == None
  {
    CommentStripped("#" + comment);
    StripIsSlice(rest);
    NotContainsByChar(Strip(rest), "=", '=');
  }

  // ------------------------------------------------------------------
  // The whole file
  // ------------------------------------------------------------------

  /**
   * What `os.environ[key] = value` accepts: a non-empty name holding neither "=" nor NUL, and
   * a value without NUL.
   */
  predicate Settable(key: string, value: string) {
    key != [] && '=' !in key && '\0' !in key && '\0' !in value
  }

  /** Each line of the file as `ParseEnvLine` reads it. */
  function Entries(lines: seq<string>): (r: seq<Option<(string, string)>>)
    ensures |r| == |lines| && forall i :: 0 <= i < |lines| ==> r[i] == ParseEnvLine(lines[i])
  {
    seq(|lines|, i requires 0 <= i < |lines| => ParseEnvLine(lines[i]))
  }

  /**
   * Loading `lines` over the environment `env`: the environment afterwards and whether no
   * assignment raised. Lines are applied in order, and loading stops at the first failure.
   */
  function Loaded(env: map<string, string>, lines: seq<string>): (r: (map<string, string>, bool)) {
    Assigned(env, Entries(lines))
  }

  /** The parsed lines applied in order, stopping at the first assignment that raises. */
  function Assigned(env: map<string, string>, es: seq<Option<(string, string)>>): (r: (map<string, string>, bool))
    decreases |es|
  {
    if es == [] then (env, true)
    else
      var prev := Assigned(env, es[..|es| - 1]);
      if !prev.1 then prev else Apply(prev.0, es[|es| - 1])
  }

  /** One parsed line applied to the environment, and whether its assignment was accepted. */
  function Apply(m: map<string, string>, e: Option<(string, string)>): (r: (map<string, string>, bool)) {
    if e.None? then (m, true)
    else if Settable(e.value.0, e.value.1) then (m[e.value.0 := e.value.1], true)
    else (m, false)
  }

  /** An entry sets `k` when it is an assignment of `k`. */
  predicate SetsKey(e: Option<(string, string)>, k: string) {
    e.Some? && e.value.0 == k
  }

  /** A line sets `k` when it parses to an assignment of `k`. */
  predicate Sets(line: string, k: string) {
    SetsKey(ParseEnvLine(line), k)
  }

  /** Loading one more line after a successful prefix applies that line. */
  lemma AssignedSnoc(env: map<string, string>, es: seq<Option<(string, string)>>, i: nat)
    requires i < |es| && Assigned(env, es[..i]).1
    ensures Assigned(env, es[..i + 1]) == Apply(Assigned(env, es[..i]).0, es[i])
  {
    assert es[..i + 1][..i] == es[..i];
  }

  /** Once loading has failed, the remaining lines change nothing. */
  lemma {:induction false} AssignedStops(env: map<string, string>, es: seq<Option<(string, string)>>, i: nat)
    requires i <= |es| && !Assigned(env, es[..i]).1
    ensures Assigned(env, es) == Assigned(env, es[..i])
    decreases |es|
  {
    if i < |es| {
      var init := es[..|es| - 1];
      assert init[..i] == es[..i];
      AssignedStops(env, init, i);
    } else {
      assert es[..i] == es;
    }
  }

  /** A successful load succeeded on every prefix. */
  lemma AssignedPrefix(env: map<string, string>, es: seq<Option<(string, string)>>, i: nat)
    requires i <= |es| && Assigned(env, es).1
    ensures Assigned(env, es[..i]).1
  {
    if !Assigned(env, es[..i]).1 {
      AssignedStops(env, es, i);
    }
  }

  lemma {:induction false} AssignedLastWins(env: map<string, string>, es: seq<Option<(string, string)>>, j: nat, k: string, v: string)
    requires j < |es| && Assigned(env, es).1 && es[j] == Some((k, v))
    requires forall j' :: j < j' < |es| ==> !SetsKey(es[j'], k)
    ensures k in Assigned(env, es).0 && Assigned(env, es).0[k] == v
    decreases |es|
  {
    var init := es[..|es| - 1];
    AssignedPrefix(env, es, |es| - 1);
    if j < |es| - 1 {
      assert forall j' :: j < j' < |init| ==> init[j'] == es[j'];
      AssignedLastWins(env, init, j, k, v);
    }
  }

  lemma {:induction false} AssignedUntouched(env: map<string, string>, es: seq<Option<(string, string)>>, k: string)
    requires forall j :: 0 <= j < |es| ==> !SetsKey(es[j], k)
    ensures k in Assigned(env, es).0 <==> k in env
    ensures k in env ==> Assigned(env, es).0[k] == env[k]
    decreases |es|
  {
    if es != [] {
      AssignedUntouched(env, es[..|es| - 1], k);
    }
  }

  /** Once a load has failed, the lines after the failing one change nothing. */
  lemma LoadedStops(env: map<string, string>, lines: seq<string>, i: nat)
    requires i <= |lines| && !Loaded(env, lines[..i]).1
    ensures Loaded(env, lines) == Loaded(env, lines[..i])
  {
    assert Entries(lines[..i]) == Entries(lines)[..i];
    AssignedStops(env, Entries(lines), i);
  }

  /** When the load succeeds, the last line setting a key decides its value. */
  lemma LastWriteWins(env: map<string, string>, lines: seq<string>, j: nat, k: string, v: string)
    requires j < |lines| && Loaded(env, lines).1
    requires ParseEnvLine(lines[j]) == Some((k, v))
    requires forall j' :: j < j' < |lines| ==> !Sets(lines[j'], k)
    ensures k in Loaded(env, lines).0 && Loaded(env, lines).0[k] == v
  {
    AssignedLastWins(env, Entries(lines), j, k, v);
  }

  /** A key no line sets keeps its value from the environment, even when the load fails. */
  lemma Untouched(env: map<string, string>, lines: seq<string>, k: string)
    requires forall j :: 0 <= j < |lines| ==> !Sets(lines[j], k)
    ensures k in Loaded(env, lines).0 <==> k in env
    ensures k in env ==> Loaded(env, lines).0[k] == env[k]
  {
    AssignedUntouched(env, Entries(lines), k);
  }

  /** Appending a skipped line changes neither the environment nor the outcome. */
  lemma SkippedLineIgnored(env: map<string, string>, lines: seq<string>, line: string)
    requires ParseEnvLine(line).None?
    ensures Loaded(env, lines + [line]) == Loaded(env, lines)
  {
    assert Entries(lines + [line])[..|lines|] == Entries(lines);
  }

  // ------------------------------------------------------------------
  // The process environment
  // ------------------------------------------------------------------

  /** `os.environ`: the variables of the running process. */
  class Environ {
    var vars: map<string, string>

    constructor(initial: map<string, string>)
      ensures vars == initial
    {
      vars := initial;
    }

    /** `os.environ[key] = value`; a name or value it refuses raises `ValueError` instead. */
    method Put(key: string, value: string) returns (ok: bool)
      modifies this
      ensures ok <==> Settable(key, value)
      ensures vars == if ok then old(vars)[key := value] else old(vars)
    {
      ok := Settable(key, value);
      if ok {
        vars := vars[key := value];
      }
    }

    /**
     * The loading loop of `check_environment`: each line in turn; an assignment that raises
     * ends the loop (the `except` branch), leaving the earlier assignments in place.
     */
    method LoadEnv(lines: seq<string>) returns (ok: bool)
      modifies this
      ensures (vars, ok) == Loaded(old(vars), lines)
    {
      ghost var env, es := vars, Entries(lines);
      var i := 0;
      while i < |lines|
        invariant 0 <= i <= |lines|
        invariant (vars, true) == Assigned(env, es[..i])
      {
        AssignedSnoc(env, es, i);
        var parsed := ParseEnvLine(lines[i]);
        if parsed.Some? {
          var (k, v) := parsed.value;
          var put := Put(k, v);
          if !put {
            AssignedStops(env, es, i + 1);
            return false;
          }
        }
        i := i + 1;
      }
      assert es[..i] == es;
      ok := true;
    }
  }

  // ------------------------------------------------------------------
  // Required variables
  // ------------------------------------------------------------------

  const Required: seq<string> := ["API_ID", "API_HASH"]

  /** `os.getenv(name)` is None or empty. */
  predicate Unset(vars: map<string, string>, name: string) {
    name !in vars || vars[name] == []
  }

  /** The required names that are unset, in their order. */
  function MissingOf(vars: map<string, string>, names: seq<string>): (r: seq<string>)
    ensures forall n :: n in r <==> n in names && Unset(vars, n)
    ensures |r| <= |names|
  {
    if names == [] then []
    else
      var init := MissingOf(vars, names[..|names| - 1]);
      var n := names[|names| - 1];
      assert forall q :: q in names <==> q in names[..|names| - 1] || q == n;
      if Unset(vars, n) then init + [n] else init
  }

  /** The two required variables are reported missing in the order `API_ID`, `API_HASH`. */
  lemma RequiredMissing(vars: map<string, string>)
    ensures MissingOf(vars, Required) ==
      (if Unset(vars, "API_ID") then ["API_ID"] else []) + (if Unset(vars, "API_HASH") then ["API_HASH"] else [])
  {
    assert Required[..1] == ["API_ID"];
    assert ["API_ID"][..0] == [];
  }

  /**
   * The masked form shown for a present value: its first three characters and `...`, or
   * `***` when it has three characters or fewer.
   */
  function Mask(value: string): (r: string)
    ensures |value| <= 3 ==> r == "***"
    ensures |value| > 3 ==> |r| == 6 && StartsWith(value, r[..3]) && r[3..] == "..."
  {
    if |value| > 3 then value[..3] + "..." else "***"
  }

  /** The mask reveals no more than the first three characters. */
  lemma MaskDependsOnPrefix(a: string, b: string)
    requires |a| > 3 && |b| > 3 && a[..3] == b[..3]
    ensures Mask(a) == Mask(b)
  {
    var ra, rb := Mask(a), Mask(b);
    assert ra[..3] == a[..3] && rb[..3] == b[..3];
    assert ra == ra[..3] + ra[3..] && rb == rb[..3] + rb[3..];
  }

  /** The (name, masked value) pairs shown for the set names, in order. */
  function ShownOf(vars: map<string, string>, names: seq<string>): (r: seq<(string, string)>)
    ensures forall i :: 0 <= i < |r| ==> r[i].0 in names && !Unset(vars, r[i].0) && r[i].1 == Mask(vars[r[i].0])
    ensures |r| + |MissingOf(vars, names)| == |names|
  {
    if names == [] then []
    else
      var init := ShownOf(vars, names[..|names| - 1]);
      var n := names[|names| - 1];
      if Unset(vars, n) then init else init + [(n, Mask(vars[n]))]
  }

  /** What `check_environment` reports: its verdict, the masked values shown and the names missing. */
  datatype EnvReport = EnvReport(ok: bool, shown: seq<(string, string)>, missing: seq<string>)

  /**
   * `check_environment`: no `.env` file (None) or a failed load answers false; otherwise the
   * answer is true exactly when no required variable is missing.
   */
  method CheckEnvironment(env: Environ, file: Option<seq<string>>) returns (r: EnvReport)
    modifies env
    ensures file.None? ==> r == EnvReport(false, [], []) && env.vars == old(env.vars)
    ensures file.Some? ==> env.vars == Loaded(old(env.vars), file.value).0
    ensures file.Some? && !Loaded(old(env.vars), file.value).1 ==> r == EnvReport(false, [], [])
    ensures file.Some? && Loaded(old(env.vars), file.value).1 ==>
      && r.missing == MissingOf(env.vars, Required)
      && r.shown == ShownOf(env.vars, Required)
      && (r.ok <==> !Unset(env.vars, "API_ID") && !Unset(env.vars, "API_HASH"))
  {
    if file.None? {
      return EnvReport(false, [], []);
    }
    var loaded := env.LoadEnv(file.value);
    if !loaded {
      return EnvReport(false, [], []);
    }
    var missing: seq<string> := [];
    var shown: seq<(string, string)> := [];
    for i := 0 to |Required|
      invariant missing == MissingOf(env.vars, Required[..i])
      invariant shown == ShownOf(env.vars, Required[..i])
    {
      assert Required[..i + 1][..i] == Required[..i];
      var name := Required[i];
      if name !in env.vars || env.vars[name] == [] {
        missing := missing + [name];
      } else {
        shown := shown + [(name, Mask(env.vars[name]))];
      }
    }
    assert Required[..|Required|] == Required;
    RequiredMissing(env.vars);
    r := EnvReport(missing == [], shown, missing);
  }
}
