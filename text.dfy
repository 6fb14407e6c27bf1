/**
 * The few Python string operations the sender relies on, with Python's
 * semantics: `str.strip()`, `str.split(sep)`, `str.split(sep, 1)`,
 * `str.startswith`, `int(str)`, `str(int)` and `os.path.basename`.
 */
module Text {
  import opened Wrappers

  /** The characters for which Python's `str.isspace()` holds. */
  predicate IsSpace(c: char) {
    || ('\t' <= c <= '\r')
    || ('\U{1C}' <= c <= ' ')
    || c == '\U{85}' || c == '\U{A0}' || c == '\U{1680}'
    || ('\U{2000}' <= c <= '\U{200A}')
    || c == '\U{2028}' || c == '\U{2029}' || c == '\U{202F}' || c == '\U{205F}' || c == '\U{3000}'
  }

  predicate AllSpace(s: string) {
    forall i :: 0 <= i < |s| ==> IsSpace(s[i])
  }

  /** Number of whitespace characters at the front of `s`. */
  function LeadingSpace(s: string): (n: nat)
    ensures n <= |s|
    ensures n < |s| ==> !IsSpace(s[n])
  {
    if s == [] || !IsSpace(s[0]) then 0 else 1 + LeadingSpace(s[1..])
  }

  /** The leading run is all whitespace. */
  lemma {:induction false} LeadingSpaceIsSpace(s: string)
    ensures AllSpace(s[..LeadingSpace(s)])
  {
    if s != [] && IsSpace(s[0]) {
      LeadingSpaceIsSpace(s[1..]);
      assert s[..LeadingSpace(s)] == [s[0]] + s[1..][..LeadingSpace(s[1..])];
    }
  }

  /** Number of whitespace characters at the back of `s`. */
  function TrailingSpace(s: string): (n: nat)
    ensures n <= |s|
    ensures n < |s| ==> !IsSpace(s[|s| - n - 1])
  {
    if s == [] || !IsSpace(s[|s| - 1]) then 0 else 1 + TrailingSpace(s[..|s| - 1])
  }

  /** The trailing run is all whitespace. */
  lemma {:induction false} TrailingSpaceIsSpace(s: string)
    ensures AllSpace(s[|s| - TrailingSpace(s)..])
  {
    if s != [] && IsSpace(s[|s| - 1]) {
      var init := s[..|s| - 1];
      TrailingSpaceIsSpace(init);
      assert s[|s| - TrailingSpace(s)..] == init[|init| - TrailingSpace(init)..] + [s[|s| - 1]];
    }
  }

  /** `s[..n]` is the whole leading run of whitespace. */
  lemma {:induction false} LeadingSpaceAt(s: string, n: nat)
    requires n <= |s| && AllSpace(s[..n]) && (n < |s| ==> !IsSpace(s[n]))
    ensures LeadingSpace(s) == n
  {
    if n > 0 {
      assert s[..n][0] == s[0];
      assert s[1..][..n - 1] == s[1..n];
      LeadingSpaceAt(s[1..], n - 1);
    }
  }

  /** `s[|s| - n..]` is the whole trailing run of whitespace. */
  lemma {:induction false} TrailingSpaceAt(s: string, n: nat)
    requires n <= |s| && AllSpace(s[|s| - n..]) && (n < |s| ==> !IsSpace(s[|s| - n - 1]))
    ensures TrailingSpace(s) == n
  {
    if n > 0 {
      var init := s[..|s| - 1];
      assert s[|s| - n..][n - 1] == s[|s| - 1];
      assert init[|init| - (n - 1)..] == s[|s| - n..|s| - 1];
      TrailingSpaceAt(init, n - 1);
    }
  }

  lemma {:induction false} AllSpaceConcat(a: string, b: string)
    requires AllSpace(a) && AllSpace(b)
    ensures AllSpace(a + b)
  {
    forall i | 0 <= i < |a + b| ensures IsSpace((a + b)[i]) {
      if i >= |a| { assert (a + b)[i] == b[i - |a|]; }
    }
  }

  /**
   * Python's `s.strip()`: the slice of `s` left once the whitespace at both
   * ends is gone.
   */
  function Strip(s: string): (r: string)
    ensures |r| <= |s|
    ensures r == [] || (!IsSpace(r[0]) && !IsSpace(r[|r| - 1]))
  {
    var a := LeadingSpace(s);
    var t := s[a..];
    var b := TrailingSpace(t);
    t[..|t| - b]
  }

  /** Stripping whitespace-padded text `u + r + v` gives back `r` when `r` has no edge whitespace. */
  lemma {:induction false} StripOf(u: string, r: string, v: string)
    requires AllSpace(u) && AllSpace(v)
    requires r == [] || (!IsSpace(r[0]) && !IsSpace(r[|r| - 1]))
    ensures Strip(u + r + v) == r
  {
    var s := u + r + v;
    if r == [] {
      assert s == u + v;
      AllSpaceConcat(u, v);
      assert s[..|s|] == s;
      LeadingSpaceAt(s, |s|);
      assert s[|s|..] == [];
    } else {
      assert s[..|u|] == u;
      assert s[|u|] == r[0];
      LeadingSpaceAt(s, |u|);
      var t := s[|u|..];
      assert t == r + v;
      assert t[|t| - |v|..] == v;
      assert t[|t| - |v| - 1] == r[|r| - 1];
      TrailingSpaceAt(t, |v|);
      assert t[..|t| - |v|] == r;
    }
  }

  /** A string that neither starts nor ends with whitespace is its own strip. */
  lemma {:induction false} StripTrimmed(s: string)
    requires s == [] || (!IsSpace(s[0]) && !IsSpace(s[|s| - 1]))
    ensures Strip(s) == s
  {
    StripOf([], s, []);
    assert [] + s + [] == s;
  }

  /** Every string is its strip padded with whitespace. */
  lemma {:induction false} StripSplits(s: string) returns (u: string, v: string)
    ensures AllSpace(u) && AllSpace(v) && s == u + Strip(s) + v
  {
    var a := LeadingSpace(s);
    var t := s[a..];
    var b := TrailingSpace(t);
    LeadingSpaceIsSpace(s);
    TrailingSpaceIsSpace(t);
    var e := a + (|t| - b);
    u, v := s[..a], s[e..];
    assert v == t[|t| - b..];
    assert Strip(s) == s[a..e];
    ThreeParts(s, a, e);
  }

  lemma ThreeParts(s: string, a: nat, e: nat)
    requires a <= e <= |s|
    ensures s == s[..a] + s[a..e] + s[e..]
  {
  }

  /** Whitespace around a string does not survive the strip. */
  lemma {:induction false} StripPadded(p: string, s: string, q: string)
    requires AllSpace(p) && AllSpace(q)
    ensures Strip(p + s + q) == Strip(s)
  {
    var r := Strip(s);
    var u, v := StripSplits(s);
    AllSpaceConcat(p, u);
    AllSpaceConcat(v, q);
    Regroup(p, u, r, v, q);
    StripOf(p + u, r, v + q);
  }

  lemma Regroup(p: string, u: string, r: string, v: string, q: string)
    ensures p + (u + r + v) + q == (p + u) + r + (v + q)
  {
  }

  predicate StartsWith(s: string, prefix: string) {
    |prefix| <= |s| && s[..|prefix|] == prefix
  }

  /** The first index at or after `from` holding `c`, if any. */
  function Find(s: string, c: char, from: nat): (r: Option<nat>)
    requires from <= |s|
    ensures r.Some? ==> from <= r.value < |s| && s[r.value] == c && c !in s[from..r.value]
    ensures r.None? ==> c !in s[from..]
    decreases |s| - from
  {
    if from == |s| then None
    else if s[from] == c then Some(from)
    else
      var r := Find(s, c, from + 1);
      assert s[from..] == [s[from]] + s[from + 1..];
      assert r.Some? ==> s[from..r.value] == [s[from]] + s[from + 1..r.value];
      r
  }

  /** `Find` stops at the first occurrence. */
  lemma {:induction false} FindFirst(s: string, c: char, from: nat, k: nat)
    requires from <= k < |s| && s[k] == c && c !in s[from..k]
    ensures Find(s, c, from) == Some(k)
    decreases k - from
  {
    if from < k {
      assert s[from] == s[from..k][0];
      assert s[from + 1..k] == s[from..k][1..];
      FindFirst(s, c, from + 1, k);
    }
  }

  /** Python's `sep.join(parts)`: the parts with one `sep` between neighbours. */
  function Join(parts: seq<string>, sep: char): string {
    if |parts| == 0 then ""
    else if |parts| == 1 then parts[0]
    else parts[0] + [sep] + Join(parts[1..], sep)
  }

  /**
   * Python's `s.split(sep)` for a one-character separator: never empty, no part
   * holds `sep`, and gluing the parts back with `sep` gives `s`.
   */
  function Split(s: string, sep: char): (parts: seq<string>)
    ensures |parts| >= 1
    ensures forall i :: 0 <= i < |parts| ==> sep !in parts[i]
    ensures Join(parts, sep) == s
  {
    if s == [] then [""]
    else
      var rest := Split(s[1..], sep);
      if s[0] == sep then
        assert Join([""] + rest, sep) == [sep] + Join(rest, sep) by {
          assert ([""] + rest)[1..] == rest;
        }
        [""] + rest
      else
        var parts := [[s[0]] + rest[0]] + rest[1..];
        assert sep !in parts[0] by {
          forall j | 0 <= j < |parts[0]| ensures parts[0][j] != sep {
            if j > 0 { assert parts[0][j] == rest[0][j - 1]; }
          }
        }
        assert parts[1..] == rest[1..];
        assert Join(parts, sep) == s by {
          if |rest| == 1 {
            assert Join(rest, sep) == rest[0];
          } else {
            assert Join(rest, sep) == rest[0] + [sep] + Join(rest[1..], sep);
          }
        }
        parts
  }

  /** Text without `sep` is a single part. */
  lemma {:induction false} SplitNoSep(a: string, sep: char)
    requires sep !in a
    ensures Split(a, sep) == [a]
  {
    if a != [] {
      SplitNoSep(a[1..], sep);
      assert [a[0]] + a[1..] == a;
    }
  }

  /** The first part runs up to the first separator. */
  lemma {:induction false} SplitAfter(a: string, rest: string, sep: char)
    requires sep !in a
    ensures Split(a + [sep] + rest, sep) == [a] + Split(rest, sep)
  {
    var s := a + [sep] + rest;
    if a == [] {
      assert s[1..] == rest;
    } else {
      assert s[1..] == a[1..] + [sep] + rest;
      SplitAfter(a[1..], rest, sep);
      assert [a[0]] + a[1..] == a;
    }
  }

  /** Splitting undoes joining separator-free parts. */
  lemma {:induction false} SplitJoin(xs: seq<string>, sep: char)
    requires |xs| >= 1
    requires forall i :: 0 <= i < |xs| ==> sep !in xs[i]
    ensures Split(Join(xs, sep), sep) == xs
  {
    if |xs| == 1 {
      SplitNoSep(xs[0], sep);
    } else {
      SplitAfter(xs[0], Join(xs[1..], sep), sep);
      SplitJoin(xs[1..], sep);
      assert [xs[0]] + xs[1..] == xs;
    }
  }

  /** Python's `s.split(sep, 1)` when `sep in s`: the text before and after the first `sep`. */
  function SplitOnce(s: string, sep: char): (r: (string, string))
    requires sep in s
    ensures sep !in r.0 && s == r.0 + [sep] + r.1
  {
    var i := Find(s, sep, 0).value;
    assert s == s[..i] + [sep] + s[i + 1..];
    (s[..i], s[i + 1..])
  }

  predicate IsDigit(c: char) {
    '0' <= c <= '9'
  }

  /** The digits of `d`, underscores skipped, read as a decimal number. */
  function DigitsValue(d: string): nat {
    if d == [] then 0
    else if d[|d| - 1] == '_' then DigitsValue(d[..|d| - 1])
    else DigitsValue(d[..|d| - 1]) * 10 + (d[|d| - 1] as int - '0' as int) % 10
  }

  /**
   * What Python's `int()` accepts after the sign: ASCII digits, with single
   * underscores allowed between two digits.
   */
  predicate WellFormedDigits(d: string) {
    && |d| > 0 && IsDigit(d[0]) && IsDigit(d[|d| - 1])
    && (forall i :: 0 <= i < |d| ==> IsDigit(d[i]) || d[i] == '_')
    && (forall i :: 0 <= i < |d| - 1 ==> IsDigit(d[i]) || IsDigit(d[i + 1]))
  }

  /** Python's `int(s)` on a string: `None` where Python raises `ValueError`. */
  function ParseInt(s: string): Option<int> {
    var t := Strip(s);
    if |t| > 0 && (t[0] == '+' || t[0] == '-') then
      if WellFormedDigits(t[1..]) then
        var v: int := DigitsValue(t[1..]);
        Some(if t[0] == '-' then -v else v)
      else None
    else if WellFormedDigits(t) then Some(DigitsValue(t))
    else None
  }

  /** The decimal digits of `n`, most significant first. */
  function Digits(n: nat): (d: string)
    ensures |d| > 0 && forall i :: 0 <= i < |d| ==> IsDigit(d[i])
  {
    var last := ['0' + (n % 10) as char];
    if n < 10 then last else Digits(n / 10) + last
  }

  /** Python's `str(n)`. */
  function IntToString(n: int): string {
    if n < 0 then "-" + Digits(-n) else Digits(n)
  }

  lemma {:induction false} DigitsValueOfDigits(n: nat)
    ensures DigitsValue(Digits(n)) == n
  {
    var d := Digits(n);
    assert d[..|d| - 1] == if n < 10 then [] else Digits(n / 10);
    if n >= 10 {
      DigitsValueOfDigits(n / 10);
    }
  }

  /** `int(str(n)) == n`. */
  lemma {:induction false} ParseIntOfIntToString(n: int)
    ensures ParseInt(IntToString(n)) == Some(n)
  {
    var s := IntToString(n);
    var m := if n < 0 then -n else n;
    var d := Digits(m);
    DigitsValueOfDigits(m);
    assert WellFormedDigits(d);
    assert !IsSpace(s[0]) && !IsSpace(s[|s| - 1]);
    StripTrimmed(s);
    if n < 0 {
      assert s[1..] == d;
    } else {
      assert s == d && s[0] != '+' && s[0] != '-';
    }
  }

  /** Where the last component of `path` starts: just after its last `/`, or 0. */
  function NameStart(path: string): (k: nat)
    ensures k <= |path|
    decreases |path|
  {
    if path == [] then 0
    else if path[|path| - 1] == '/' then |path|
    else NameStart(path[..|path| - 1])
  }

  /** `os.path.basename` on POSIX paths: what follows the last `/`. */
  function Basename(path: string): string {
    path[NameStart(path)..]
  }

  /**
   * `NameStart` is the position just after the last '/': the character before
   * it is a '/' (unless it is 0) and no '/' comes at or after it.
   */
  lemma {:induction false} NameStartAfterLastSlash(path: string)
    ensures var k := NameStart(path);
            (k == 0 || path[k - 1] == '/') && forall i :: k <= i < |path| ==> path[i] != '/'
    decreases |path|
  {
    if path != [] && path[|path| - 1] != '/' {
      var init := path[..|path| - 1];
      NameStartAfterLastSlash(init);
      assert forall i :: 0 <= i < |init| ==> init[i] == path[i];
    }
  }

  /** The base name holds no '/'. */
  lemma BasenameHasNoSlash(path: string)
    ensures '/' !in Basename(path)
  {
    NameStartAfterLastSlash(path);
    var k := NameStart(path);
    forall j | 0 <= j < |path| - k
      ensures Basename(path)[j] != '/'
    {
      assert Basename(path)[j] == path[k + j];
    }
  }

  /** A name joined under a directory with '/' is its own base name. */
  lemma {:induction false} BasenameOfJoined(dir: string, name: string)
    requires '/' !in name
    ensures Basename(dir + "/" + name) == name
    decreases |name|
  {
    var p := dir + "/" + name;
    if name == [] {
      assert p[|p| - 1] == '/';
    } else {
      var init := name[..|name| - 1];
      assert p[..|p| - 1] == dir + "/" + init;
      assert p[|p| - 1] == name[|name| - 1];
      BasenameOfJoined(dir, init);
      assert NameStart(p) == |dir| + 1;
    }
  }
}
