/**
 * The two JavaScript string built-ins the core relies on:
 * `String.prototype.trim` and `String.prototype.split` with a one-character separator.
 */
module JsString {

  /** The WhiteSpace and LineTerminator code points of ECMA-262 (sections 12.2 and 12.3): what `trim` strips. */
  predicate IsWhiteSpace(c: char) {
    c == '\t' || c == '\U{000B}' || c == '\U{000C}' || c == ' ' || c == '\U{00A0}' || c == '\U{FEFF}'
    || c == '\n' || c == '\r' || c == '\U{2028}' || c == '\U{2029}'
    || c == '\U{1680}' || ('\U{2000}' <= c <= '\U{200A}') || c == '\U{202F}' || c == '\U{205F}' || c == '\U{3000}'
  }

  predicate AllWhiteSpace(s: string) {
    forall i | 0 <= i < |s| :: IsWhiteSpace(s[i])
  }

  predicate NoWhiteSpace(s: string) {
    forall i | 0 <= i < |s| :: !IsWhiteSpace(s[i])
  }

  /** Neither end of `s` is white space: what `trim` leaves behind. */
  predicate Trimmed(s: string) {
    s == [] || (!IsWhiteSpace(s[0]) && !IsWhiteSpace(s[|s| - 1]))
  }

  /** Drops the leading white space. */
  function TrimStart(s: string): (r: string)
    ensures |r| <= |s| && r == s[|s| - |r|..]
    ensures forall k | 0 <= k < |s| - |r| :: IsWhiteSpace(s[k])
    ensures r == [] || !IsWhiteSpace(r[0])
  {
    if |s| > 0 && IsWhiteSpace(s[0]) then TrimStart(s[1..]) else s
  }

  /** Drops the trailing white space. */
  function TrimEnd(s: string): (r: string)
    ensures |r| <= |s| && r == s[..|r|]
    ensures forall k | |r| <= k < |s| :: IsWhiteSpace(s[k])
    ensures r == [] || !IsWhiteSpace(r[|r| - 1])
  {
    if |s| > 0 && IsWhiteSpace(s[|s| - 1]) then TrimEnd(s[..|s| - 1]) else s
  }

  /** `s.trim()`. */
  function Trim(s: string): (r: string)
    ensures Trimmed(r)
  {
    TrimEnd(TrimStart(s))
  }

  lemma {:induction false} TrimStartSkips(w: string, s: string)
    requires AllWhiteSpace(w)
    ensures TrimStart(w + s) == TrimStart(s)
  {
    if w == [] {
      assert w + s == s;
    } else {
      assert (w + s)[0] == w[0];
      assert (w + s)[1..] == w[1..] + s;
      TrimStartSkips(w[1..], s);
    }
  }

  lemma {:induction false} TrimEndSkips(s: string, w: string)
    requires AllWhiteSpace(w)
    ensures TrimEnd(s + w) == TrimEnd(s)
  {
    if w == [] {
      assert s + w == s;
    } else {
      assert (s + w)[|s + w| - 1] == w[|w| - 1];
      assert (s + w)[..|s + w| - 1] == s + w[..|w| - 1];
      TrimEndSkips(s, w[..|w| - 1]);
    }
  }

  /** `trim` returns the part of its input between a white-space prefix `s[..i]` and a white-space suffix `s[j..]`. */
  lemma TrimDecomposes(s: string) returns (i: nat, j: nat)
    ensures i <= j <= |s| && Trim(s) == s[i..j]
    ensures AllWhiteSpace(s[..i]) && AllWhiteSpace(s[j..])
  {
    var t := TrimStart(s);
    i := |s| - |t|;
    var r := TrimEnd(t);
    j := i + |r|;
    PrefixAllWhiteSpace(s, i);
    SuffixAllWhiteSpace(t, |r|);
    assert s[j..] == t[|r|..];
  }

  lemma PrefixAllWhiteSpace(s: string, i: nat)
    requires i <= |s|
    requires forall k | 0 <= k < i :: IsWhiteSpace(s[k])
    ensures AllWhiteSpace(s[..i])
  {
  }

  lemma SuffixAllWhiteSpace(s: string, j: nat)
    requires j <= |s|
    requires forall k | j <= k < |s| :: IsWhiteSpace(s[k])
    ensures AllWhiteSpace(s[j..])
  {
    forall k | 0 <= k < |s| - j ensures IsWhiteSpace(s[j..][k]) {
      assert s[j..][k] == s[j + k];
    }
  }

  /** Padding a trimmed string with white space on both sides and trimming gives it back. */
  lemma {:induction false} TrimCanonical(w1: string, core: string, w2: string)
    requires AllWhiteSpace(w1) && AllWhiteSpace(w2) && Trimmed(core)
    ensures Trim(w1 + core + w2) == core
  {
    assert w1 + core + w2 == w1 + (core + w2);
    TrimStartSkips(w1, core + w2);
    if core == [] {
      assert core + w2 == w2 + [];
      TrimStartSkips(w2, []);
      assert TrimStart(core + w2) == [];
    } else {
      assert (core + w2)[0] == core[0];
      assert TrimStart(core + w2) == core + w2;
      TrimEndSkips(core, w2);
      assert TrimEnd(core) == core;
    }
  }

  lemma AllWhiteSpaceConcat(a: string, b: string)
    requires AllWhiteSpace(a) && AllWhiteSpace(b)
    ensures AllWhiteSpace(a + b)
  {
    forall k | 0 <= k < |a + b| ensures IsWhiteSpace((a + b)[k]) {
      if k >= |a| { assert (a + b)[k] == b[k - |a|]; }
    }
  }

  /** Trimming a trimmed core with white space on both sides, however the padding is grouped. */
  lemma TrimPadded(w1: string, s: string, w2: string, a: string, t: string, b: string)
    requires AllWhiteSpace(w1) && AllWhiteSpace(a) && AllWhiteSpace(b) && AllWhiteSpace(w2) && Trimmed(t)
    requires s == a + t + b
    ensures Trim(w1 + s + w2) == t
  {
    Regroup(w1, a, t, b, w2);
    AllWhiteSpaceConcat(w1, a);
    AllWhiteSpaceConcat(b, w2);
    TrimCanonical(w1 + a, t, b + w2);
  }

  /** Leading and trailing white space do not change what `trim` returns. */
  lemma TrimIgnoresPadding(w1: string, s: string, w2: string)
    requires AllWhiteSpace(w1) && AllWhiteSpace(w2)
    ensures Trim(w1 + s + w2) == Trim(s)
  {
    var i, j := TrimDecomposes(s);
    var a, t, b := s[..i], s[i..j], s[j..];
    SliceSplit(s, i, j);
    TrimPadded(w1, s, w2, a, t, b);
  }

  lemma SliceSplit(s: string, i: nat, j: nat)
    requires i <= j <= |s|
    ensures s == s[..i] + s[i..j] + s[j..]
  {
  }

  lemma Regroup(w1: string, a: string, t: string, b: string, w2: string)
    ensures w1 + (a + t + b) + w2 == (w1 + a) + t + (b + w2)
  {
  }

  /** A string without white space is its own trim. */
  lemma TrimKeeps(s: string)
    requires NoWhiteSpace(s)
    ensures Trim(s) == s
  {
    assert [] + s + [] == s;
    TrimCanonical([], s, []);
  }

  /** The fields of `s` between occurrences of `sep`, joined back with `sep`. */
  function Join(fields: seq<string>, sep: char): string
    requires |fields| >= 1
  {
    if |fields| == 1 then fields[0] else fields[0] + [sep] + Join(fields[1..], sep)
  }

  /** `s.split(sep)` for a one-character separator: at least one field, none containing `sep`, joining back to `s`. */
  function Split(s: string, sep: char): (fields: seq<string>)
    ensures |fields| >= 1
    ensures forall k | 0 <= k < |fields| :: sep !in fields[k]
    ensures Join(fields, sep) == s
  {
    if s == [] then [""]
    else
      var rest := Split(s[1..], sep);
      if s[0] == sep then
        assert ([""] + rest)[1..] == rest;
        [""] + rest
      else
        var fields := [[s[0]] + rest[0]] + rest[1..];
        assert fields[1..] == rest[1..];
        fields
  }

  /** `split` takes the leading run without `sep` as the head of its first field. */
  lemma {:induction false} SplitPrefix(f: string, t: string, sep: char)
    requires sep !in f
    ensures Split(f + t, sep) == [f + Split(t, sep)[0]] + Split(t, sep)[1..]
  {
    if f == [] {
      var fs := Split(t, sep);
      assert f + t == t;
      assert f + fs[0] == fs[0];
      assert [fs[0]] + fs[1..] == fs;
    } else {
      var fs := Split(t, sep);
      var u := f + t;
      assert u[1..] == f[1..] + t;
      assert u[0] == f[0] && f[0] != sep;
      SplitPrefix(f[1..], t, sep);
      var rest := Split(u[1..], sep);
      assert rest == [f[1..] + fs[0]] + fs[1..];
      assert rest[0] == f[1..] + fs[0] && rest[1..] == fs[1..];
      assert Split(u, sep) == [[u[0]] + rest[0]] + rest[1..];
      ConsConcat(f, fs[0]);
    }
  }

  lemma ConsConcat(f: string, g: string)
    requires f != []
    ensures [f[0]] + (f[1..] + g) == f + g
  {
    assert f == [f[0]] + f[1..];
  }

  /** `split` inverts `Join` on fields free of the separator. */
  lemma {:induction false} SplitJoin(fields: seq<string>, sep: char)
    requires |fields| >= 1
    requires forall k | 0 <= k < |fields| :: sep !in fields[k]
    ensures Split(Join(fields, sep), sep) == fields
  {
    if |fields| == 1 {
      assert fields[0] + [] == fields[0];
      SplitPrefix(fields[0], [], sep);
    } else {
      var rest := Join(fields[1..], sep);
      SplitJoin(fields[1..], sep);
      assert Join(fields, sep) == fields[0] + ([sep] + rest);
      SplitPrefix(fields[0], [sep] + rest, sep);
      assert ([sep] + rest)[1..] == rest;
      assert Split([sep] + rest, sep) == [""] + fields[1..];
      assert fields[0] + "" == fields[0];
      assert fields == [fields[0]] + fields[1..];
    }
  }
}
