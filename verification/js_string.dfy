/**
 * The two String.prototype operations the core relies on: `trim`, which
 * decides between browse and search mode and keys the search counters, and
 * `split`, which extracts a release year.
 */
module JsString {

  /** ECMAScript WhiteSpace and LineTerminator code points: exactly what `trim` removes. */
  predicate IsWhitespace(c: char) {
    var n := c as int;
    || n == 0x09 || n == 0x0A || n == 0x0B || n == 0x0C || n == 0x0D
    || n == 0x20 || n == 0xA0 || n == 0x1680
    || (0x2000 <= n <= 0x200A)
    || n == 0x2028 || n == 0x2029 || n == 0x202F || n == 0x205F
    || n == 0x3000 || n == 0xFEFF
  }

  /** Every character is whitespace (vacuously true of ""). */
  predicate IsBlank(s: string) {
    forall i :: 0 <= i < |s| ==> IsWhitespace(s[i])
  }

  /** Length of the longest whitespace prefix. */
  function LeadingBlank(s: string): (k: nat)
    ensures k <= |s|
    ensures IsBlank(s[..k])
    ensures k < |s| ==> !IsWhitespace(s[k])
  {
    if s == [] || !IsWhitespace(s[0]) then 0
    else
      var k := 1 + LeadingBlank(s[1..]);
      assert s[..k] == [s[0]] + s[1..][..k - 1];
      k
  }

  /** Length of the longest whitespace suffix. */
  function TrailingBlank(s: string): (k: nat)
    ensures k <= |s|
    ensures IsBlank(s[|s| - k..])
    ensures k < |s| ==> !IsWhitespace(s[|s| - 1 - k])
  {
    if s == [] || !IsWhitespace(s[|s| - 1]) then 0
    else
      var t := s[..|s| - 1];
      var k := 1 + TrailingBlank(t);
      assert s[|s| - k..] == t[|t| - (k - 1)..] + [s[|s| - 1]];
      k
  }

  /** String.prototype.trim. */
  function Trim(s: string): (r: string)
    ensures |r| <= |s|
    ensures r == "" <==> IsBlank(s)
    ensures r != "" ==> !IsWhitespace(r[0]) && !IsWhitespace(r[|r| - 1])
    ensures exists i :: TrimmedAt(s, r, i)
  {
    var a := LeadingBlank(s);
    var t := s[a..];
    var b := TrailingBlank(t);
    var r := t[..|t| - b];
    TrimSlice(s, a, t, b, r);
    r
  }

  /** The facts Trim's contract needs about the slice it returns. */
  lemma TrimSlice(s: string, a: nat, t: string, b: nat, r: string)
    requires a == LeadingBlank(s) && t == s[a..]
    requires b == TrailingBlank(t) && r == t[..|t| - b]
    ensures r == "" <==> IsBlank(s)
    ensures r != "" ==> !IsWhitespace(r[0]) && !IsWhitespace(r[|r| - 1])
    ensures TrimmedAt(s, r, a)
  {
    TrimSliceAt(s, a, t, b, r);
    TrimSliceEmpty(s, a, t, b, r);
    if r != "" {
      assert r[0] == t[0] == s[a];
      assert r[|r| - 1] == t[|t| - 1 - b];
    }
  }

  lemma TrimSliceAt(s: string, a: nat, t: string, b: nat, r: string)
    requires a == LeadingBlank(s) && t == s[a..]
    requires b == TrailingBlank(t) && r == t[..|t| - b]
    ensures TrimmedAt(s, r, a)
  {
    assert s[a..a + |r|] == r;
    assert s[a + |r|..] == t[|t| - b..];
  }

  lemma TrimSliceEmpty(s: string, a: nat, t: string, b: nat, r: string)
    requires a == LeadingBlank(s) && t == s[a..]
    requires b == TrailingBlank(t) && r == t[..|t| - b]
    ensures r == "" <==> IsBlank(s)
  {
    if r == "" {
      assert t == t[|t| - b..];
      assert s == s[..a] + t;
      BlankConcat(s[..a], t);
    } else {
      assert !IsWhitespace(s[a]);
    }
  }

  lemma BlankConcat(x: string, y: string)
    requires IsBlank(x) && IsBlank(y)
    ensures IsBlank(x + y)
  {
    forall i | 0 <= i < |x + y| ensures IsWhitespace((x + y)[i]) {
      if i >= |x| { assert (x + y)[i] == y[i - |x|]; }
    }
  }

  /** `r` is `s` with a blank prefix of length `i` and a blank suffix removed. */
  predicate TrimmedAt(s: string, r: string, i: int) {
    && 0 <= i && i + |r| <= |s|
    && s[i..i + |r|] == r
    && IsBlank(s[..i])
    && IsBlank(s[i + |r|..])
  }

  /**
   * Trimming is determined by its characterisation: if `s` is a blank
   * prefix, then `r`, then a blank suffix, and `r` neither starts nor ends
   * with whitespace, then `r` is what `trim` returns.
   */
  lemma TrimCharacterised(p: string, r: string, q: string)
    requires IsBlank(p) && IsBlank(q)
    requires r != "" ==> !IsWhitespace(r[0]) && !IsWhitespace(r[|r| - 1])
    ensures Trim(p + r + q) == r
  {
    var s := p + r + q;
    if r == "" {
      assert IsBlank(s) by {
        forall i | 0 <= i < |s| ensures IsWhitespace(s[i]) {
          if i < |p| { assert s[i] == p[i]; } else { assert s[i] == q[i - |p|]; }
        }
      }
    } else {
      var a := LeadingBlank(s);
      assert s[|p|] == r[0];
      assert a == |p|;
      var t := s[a..];
      assert t == r + q;
      var b := TrailingBlank(t);
      assert t[|t| - 1 - |q|] == r[|r| - 1];
      assert b == |q|;
      assert t[..|t| - b] == r;
    }
  }

  /** Trimming twice is trimming once. */
  lemma TrimIdempotent(s: string)
    ensures Trim(Trim(s)) == Trim(s)
  {
    var r := Trim(s);
    TrimCharacterised("", r, "");
    assert "" + r + "" == r;
  }

  /** Surrounding whitespace never changes the trimmed text. */
  lemma TrimIgnoresPadding(p: string, s: string, q: string)
    requires IsBlank(p) && IsBlank(q)
    ensures Trim(p + s + q) == Trim(s)
  {
    var r := Trim(s);
    var i :| TrimmedAt(s, r, i);
    var p' := p + s[..i];
    var q' := s[i + |r|..] + q;
    BlankConcat(p, s[..i]);
    BlankConcat(s[i + |r|..], q);
    Around(s, i, |r|);
    Regroup(p, s[..i], r, s[i + |r|..], q);
    assert p + s + q == p' + r + q';
    TrimCharacterised(p', r, q');
  }

  /** A string is what comes before, inside and after any window of it. */
  lemma Around(s: string, i: nat, n: nat)
    requires i + n <= |s|
    ensures s == s[..i] + s[i..i + n] + s[i + n..]
  {
    assert s[..i] + s[i..i + n] == s[..i + n];
  }

  /** Moving the outer pieces onto the window's neighbours. */
  lemma Regroup(p: string, x: string, r: string, y: string, q: string)
    ensures p + (x + r + y) + q == (p + x) + r + (y + q)
  {
    assert p + (x + r + y) == (p + x) + r + y;
  }

  /** String.prototype.split with a one-character separator. */
  function Split(s: string, sep: char): (parts: seq<string>)
    ensures |parts| >= 1
    ensures forall k :: 0 <= k < |parts| ==> sep !in parts[k]
    ensures sep !in s ==> parts == [s]
  {
    if s == [] then [""]
    else
      var rest := Split(s[1..], sep);
      if s[0] == sep then [""] + rest
      else
        assert sep !in s ==> rest == [s[1..]] && [s[0]] + s[1..] == s;
        [[s[0]] + rest[0]] + rest[1..]
  }

  /** Array.prototype.join with a one-character separator. */
  function Join(parts: seq<string>, sep: char): string
    requires |parts| >= 1
  {
    if |parts| == 1 then parts[0] else parts[0] + [sep] + Join(parts[1..], sep)
  }

  /** Splitting loses nothing: joining the pieces back gives the original. */
  lemma {:induction false} JoinSplit(s: string, sep: char)
    ensures Join(Split(s, sep), sep) == s
  {
    if s != [] {
      var rest := Split(s[1..], sep);
      JoinSplit(s[1..], sep);
      if s[0] == sep {
        assert Split(s, sep)[1..] == rest;
      } else {
        var parts := Split(s, sep);
        if |rest| == 1 {
          assert parts == [[s[0]] + rest[0]];
        } else {
          assert parts[1..] == rest[1..];
          assert Join(rest, sep) == rest[0] + [sep] + Join(rest[1..], sep);
        }
        assert s == [s[0]] + s[1..];
      }
    }
  }

  /** Splitting a join of separator-free pieces gives the pieces back. */
  lemma {:induction false} SplitJoin(parts: seq<string>, sep: char)
    requires |parts| >= 1
    requires forall k :: 0 <= k < |parts| ==> sep !in parts[k]
    ensures Split(Join(parts, sep), sep) == parts
    decreases |parts|, |parts[0]|
  {
    var s := Join(parts, sep);
    if |parts| == 1 {
    } else if parts[0] == "" {
      SplitJoin(parts[1..], sep);
      assert s == [sep] + Join(parts[1..], sep);
      assert s[1..] == Join(parts[1..], sep);
    } else {
      var shorter := [parts[0][1..]] + parts[1..];
      assert shorter[1..] == parts[1..];
      SplitJoin(shorter, sep);
      assert s[0] == parts[0][0];
      assert s[1..] == Join(shorter, sep);
      assert parts[0] == [parts[0][0]] + parts[0][1..];
    }
  }
}
