/**
 * The Python string operations the converter relies on, written out:
 * `unicode.strip()`, `str.split(',')`, the two `re.sub` calls (folder-name
 * sanitising and note line-break collapsing), string repetition for indents
 * and `'%d'` formatting of part numbers.
 */
module Strings {

  // ---------------------------------------------------------------- strip

  /** Whitespace as Python 2.7's `unicode.isspace()` defines it. */
  predicate IsSpace(c: char) {
    ('\t' <= c <= '\r') || ('\U{1C}' <= c <= '\U{1F}') || c == ' '
    || c == '\U{85}' || c == '\U{A0}' || c == '\U{1680}' || c == '\U{180E}'
    || ('\U{2000}' <= c <= '\U{200A}') || c == '\U{2028}' || c == '\U{2029}'
    || c == '\U{202F}' || c == '\U{205F}' || c == '\U{3000}'
  }

  predicate AllSpace(s: string) {
    forall i :: 0 <= i < |s| ==> IsSpace(s[i])
  }

  /** The number of whitespace characters `s` starts with. */
  function Lead(s: string): (i: nat)
    ensures i <= |s|
    ensures forall k :: 0 <= k < i ==> IsSpace(s[k])
    ensures i < |s| ==> !IsSpace(s[i])
  {
    if s != [] && IsSpace(s[0]) then 1 + Lead(s[1..]) else 0
  }

  /** The length of `s` without its trailing whitespace. */
  function End(s: string): (j: nat)
    ensures j <= |s|
    ensures forall k :: j <= k < |s| ==> IsSpace(s[k])
    ensures j > 0 ==> !IsSpace(s[j - 1])
  {
    if s != [] && IsSpace(s[|s| - 1]) then End(s[..|s| - 1]) else |s|
  }

  /**
   * `s.strip()`: the slice of `s` left after removing leading and trailing
   * whitespace. Everything removed is whitespace, what is left neither
   * starts nor ends with whitespace, and it is empty exactly when `s` is all
   * whitespace.
   */
  function Strip(s: string): (r: string)
    ensures Lead(s) + |r| <= |s| && r == s[Lead(s)..Lead(s) + |r|]
    ensures forall k :: 0 <= k < |s| && !(Lead(s) <= k < Lead(s) + |r|) ==> IsSpace(s[k])
    ensures r != [] ==> !IsSpace(r[0]) && !IsSpace(r[|r| - 1])
    ensures r == [] <==> AllSpace(s)
  {
    var i := Lead(s);
    if i == |s| then []
    else
      var j := End(s);
      assert i < j;
      s[i..j]
  }

  lemma {:induction false} StripIdempotent(s: string)
    ensures Strip(Strip(s)) == Strip(s)
  {
    var r := Strip(s);
    if r != [] {
      assert Lead(r) == 0;
      assert End(r) == |r|;
    }
  }

  // ---------------------------------------------------------------- split

  /** Number of occurrences of `c` in `s`. */
  function Occurrences(s: string, c: char): nat {
    if s == [] then 0 else (if s[0] == c then 1 else 0) + Occurrences(s[1..], c)
  }

  /** `sep.join(parts)`. */
  function Join(parts: seq<string>, sep: char): string {
    if parts == [] then []
    else if |parts| == 1 then parts[0]
    else parts[0] + [sep] + Join(parts[1..], sep)
  }

  /**
   * `s.split(sep)` with an explicit separator: one piece more than there are
   * separators, none containing the separator, empty pieces kept.
   */
  function Split(s: string, sep: char): (r: seq<string>)
    ensures |r| == Occurrences(s, sep) + 1
    ensures forall k :: 0 <= k < |r| ==> sep !in r[k]
  {
    if s == [] then [[]]
    else if s[0] == sep then [[]] + Split(s[1..], sep)
    else
      var rest := Split(s[1..], sep);
      [[s[0]] + rest[0]] + rest[1..]
  }

  /** Joining the pieces back gives the string that was split. */
  lemma {:induction false} JoinSplit(s: string, sep: char)
    ensures Join(Split(s, sep), sep) == s
  {
    if s != [] {
      JoinSplit(s[1..], sep);
      var rest := Split(s[1..], sep);
      if s[0] == sep {
        assert Split(s, sep) == [[]] + rest;
        assert s == [sep] + s[1..];
      } else {
        var r := Split(s, sep);
        assert r == [[s[0]] + rest[0]] + rest[1..];
        if |rest| == 1 {
          assert s == [s[0]] + s[1..];
        } else {
          assert Join(rest, sep) == rest[0] + [sep] + Join(rest[1..], sep);
          assert r[1..] == rest[1..];
          assert s == [s[0]] + s[1..];
        }
      }
    }
  }

  lemma {:induction false} SplitNoSep(p: string, sep: char)
    requires sep !in p
    ensures Split(p, sep) == [p]
  {
    if p != [] {
      SplitNoSep(p[1..], sep);
      assert [p[0]] + p[1..] == p;
    }
  }

  lemma {:induction false} SplitAfterSep(p: string, sep: char, t: string)
    requires sep !in p
    ensures Split(p + [sep] + t, sep) == [p] + Split(t, sep)
  {
    if p == [] {
      assert p + [sep] + t == [sep] + t;
      assert ([sep] + t)[1..] == t;
    } else {
      SplitAfterSep(p[1..], sep, t);
      var s := p + [sep] + t;
      assert s[0] == p[0] && s[1..] == p[1..] + [sep] + t;
      assert [p[0]] + p[1..] == p;
    }
  }

  /** Three separator-free pieces joined by the separator split back into the three. */
  lemma SplitThree(p1: string, p2: string, p3: string, sep: char)
    requires sep !in p1 && sep !in p2 && sep !in p3
    ensures Split(p1 + [sep] + p2 + [sep] + p3, sep) == [p1, p2, p3]
  {
    var rest := p2 + [sep] + p3;
    assert p1 + [sep] + p2 + [sep] + p3 == p1 + [sep] + rest;
    SplitAfterSep(p1, sep, rest);
    SplitAfterSep(p2, sep, p3);
    SplitNoSep(p3, sep);
  }

  /** The other half of the round trip: splitting a join gives the pieces back. */
  lemma {:induction false} SplitJoin(parts: seq<string>, sep: char)
    requires |parts| >= 1
    requires forall k :: 0 <= k < |parts| ==> sep !in parts[k]
    ensures Split(Join(parts, sep), sep) == parts
  {
    if |parts| == 1 {
      SplitNoSep(parts[0], sep);
    } else {
      SplitJoin(parts[1..], sep);
      SplitAfterSep(parts[0], sep, Join(parts[1..], sep));
      assert [parts[0]] + parts[1..] == parts;
    }
  }

  // ---------------------------------------------------------------- re.sub

  /** `re.sub('[/]', '_', name)`: every `/` becomes `_`, nothing else changes. */
  function Sanitize(name: string): (r: string)
    ensures |r| == |name|
    ensures forall k :: 0 <= k < |name| ==> r[k] == (if name[k] == '/' then '_' else name[k])
    ensures '/' !in r
  {
    if name == [] then [] else [if name[0] == '/' then '_' else name[0]] + Sanitize(name[1..])
  }

  /** Sanitising twice gives the same name as sanitising once. */
  lemma {:induction false} SanitizeIdempotent(name: string)
    ensures Sanitize(Sanitize(name)) == Sanitize(name)
  {
    var once := Sanitize(name);
    var twice := Sanitize(once);
    assert |twice| == |once|;
    forall k | 0 <= k < |once| ensures twice[k] == once[k] {
      assert once[k] != '/';
    }
  }

  /** Sanitising is not injective: distinct raw names can share a sanitised name. */
  lemma SanitizeCollides()
    ensures "a/b" != "a_b" && Sanitize("a/b") == Sanitize("a_b") == "a_b"
  {
    assert Sanitize("a/b") == "a_b";
    assert Sanitize("a_b") == "a_b";
  }

  predicate IsBreak(c: char) {
    c == '\r' || c == '\n'
  }

  predicate NoBreaks(s: string) {
    forall k :: 0 <= k < |s| ==> !IsBreak(s[k])
  }

  /** Skips a leading run of line-break characters. */
  function SkipBreaks(s: string): (r: string)
    ensures |r| <= |s|
    ensures r != [] ==> !IsBreak(r[0])
  {
    if s != [] && IsBreak(s[0]) then SkipBreaks(s[1..]) else s
  }

  /**
   * `re.sub('[\r\n]+', '\t', s)`: each maximal run of `\r`/`\n` becomes a
   * single tab; the result holds no line break and a string without line
   * breaks is left as it is.
   */
  function CollapseBreaks(s: string): (r: string)
    ensures NoBreaks(r)
    ensures |r| <= |s|
    decreases |s|
  {
    if s == [] then []
    else if IsBreak(s[0]) then ['\t'] + CollapseBreaks(SkipBreaks(s[1..]))
    else [s[0]] + CollapseBreaks(s[1..])
  }

  /** A string without line breaks is left as it is. */
  lemma {:induction false} CollapseNoBreaks(s: string)
    requires NoBreaks(s)
    ensures CollapseBreaks(s) == s
  {
    if s != [] {
      CollapseNoBreaks(s[1..]);
      assert [s[0]] + s[1..] == s;
    }
  }

  /** The characters that are neither line breaks nor tabs, in order. */
  function Text(s: string): string {
    if s == [] then [] else (if IsBreak(s[0]) || s[0] == '\t' then [] else [s[0]]) + Text(s[1..])
  }

  lemma {:induction false} TextSkipBreaks(s: string)
    ensures Text(SkipBreaks(s)) == Text(s)
  {
    if s != [] && IsBreak(s[0]) {
      TextSkipBreaks(s[1..]);
    }
  }

  /** Collapsing changes only line breaks (into tabs): all other text survives in order. */
  lemma {:induction false} CollapseKeepsText(s: string)
    ensures Text(CollapseBreaks(s)) == Text(s)
    decreases |s|
  {
    if s != [] {
      if IsBreak(s[0]) {
        TextSkipBreaks(s[1..]);
        CollapseKeepsText(SkipBreaks(s[1..]));
        var r := CollapseBreaks(SkipBreaks(s[1..]));
        assert (['\t'] + r)[1..] == r;
      } else {
        CollapseKeepsText(s[1..]);
        var r := CollapseBreaks(s[1..]);
        assert ([s[0]] + r)[1..] == r;
      }
    }
  }

  /** Collapsing is idempotent. */
  lemma CollapseIdempotent(s: string)
    ensures CollapseBreaks(CollapseBreaks(s)) == CollapseBreaks(s)
  {
    CollapseNoBreaks(CollapseBreaks(s));
  }

  /**
   * Three lines separated by `\n` and by `\r\n` come out separated by one
   * tab each.
   */
  lemma CollapseLines(l1: string, l2: string, l3: string)
    requires NoBreaks(l1) && NoBreaks(l2) && NoBreaks(l3) && l2 != [] && l3 != []
    ensures CollapseBreaks(l1 + "\n" + l2 + "\r\n" + l3) == l1 + "\t" + l2 + "\t" + l3
  {
    CollapseNoBreaks(l3);
    assert AllBreaks("\r\n") && AllBreaks("\n");
    CollapseJoin(l2, "\r\n", l3);
    var t := l2 + ("\r\n" + l3);
    assert t[0] == l2[0];
    CollapseJoin(l1, "\n", t);
    Associate(l1 + "\n" + l2, "\r\n", l3);
    Associate(l1 + "\n", l2, "\r\n" + l3);
    Associate(l1, "\n", t);
    Associate(l1 + "\t" + l2, "\t", l3);
    Associate(l1 + "\t", l2, "\t" + l3);
    Associate(l1, "\t", l2 + ("\t" + l3));
  }

  /** Concatenation is associative; the solver sees it only when it is the goal. */
  lemma Associate<T>(a: seq<T>, b: seq<T>, c: seq<T>)
    ensures a + b + c == a + (b + c)
  {
  }

  /** Every character of `b` is a line break. */
  predicate AllBreaks(b: string) {
    b == [] || (IsBreak(b[0]) && AllBreaks(b[1..]))
  }

  /** Text, a run of line breaks, text: the run becomes one tab. */
  lemma CollapseJoin(p: string, b: string, s: string)
    requires NoBreaks(p)
    requires b != [] && AllBreaks(b)
    requires s != [] ==> !IsBreak(s[0])
    ensures CollapseBreaks(p + (b + s)) == p + ("\t" + CollapseBreaks(s))
  {
    CollapseRun(b, s);
    CollapsePrefix(p, b + s);
  }

  /** The note example: `line1\nline2\r\nline3` collapses to `line1\tline2\tline3`. */
  lemma CollapseExample()
    ensures CollapseBreaks("line1" + "\n" + "line2" + "\r\n" + "line3")
         == "line1" + "\t" + "line2" + "\t" + "line3"
  {
    CollapseLines("line1", "line2", "line3");
  }

  /** A run of line breaks followed by text becomes one tab followed by that text. */
  lemma CollapseRun(b: string, s: string)
    requires b != [] && AllBreaks(b)
    requires s != [] ==> !IsBreak(s[0])
    ensures CollapseBreaks(b + s) == "\t" + CollapseBreaks(s)
  {
    var bs := b + s;
    assert bs[0] == b[0];
    assert bs[1..] == b[1..] + s;
    SkipRun(b[1..], s);
  }

  lemma {:induction false} SkipRun(b: string, s: string)
    requires AllBreaks(b)
    requires s != [] ==> !IsBreak(s[0])
    ensures SkipBreaks(b + s) == s
  {
    if b == [] {
      assert b + s == s;
    } else {
      var bs := b + s;
      assert bs[0] == b[0];
      assert bs[1..] == b[1..] + s;
      SkipRun(b[1..], s);
    }
  }

  lemma {:induction false} CollapsePrefix(p: string, s: string)
    requires NoBreaks(p)
    ensures CollapseBreaks(p + s) == p + CollapseBreaks(s)
  {
    if p != [] {
      var ps := p + s;
      assert ps[0] == p[0] && !IsBreak(ps[0]);
      assert ps[1..] == p[1..] + s;
      assert CollapseBreaks(ps) == [p[0]] + CollapseBreaks(p[1..] + s);
      CollapsePrefix(p[1..], s);
      assert [p[0]] + (p[1..] + CollapseBreaks(s)) == p + CollapseBreaks(s) by {
        assert [p[0]] + p[1..] == p;
      }
    } else {
      assert p + s == s;
    }
  }

  // ---------------------------------------------------------------- indents

  /** `s` repeated `n` times, each new copy added in front. */
  function Repeat(s: string, n: nat): (r: string)
    ensures |r| == n * |s|
  {
    if n == 0 then [] else s + Repeat(s, n - 1)
  }

  /** Adding a copy at the back gives the same string as adding it in front. */
  lemma {:induction false} RepeatSnoc(s: string, n: nat)
    ensures Repeat(s, n) + s == Repeat(s, n + 1)
  {
    if n > 0 {
      RepeatSnoc(s, n - 1);
      assert Repeat(s, n) + s == s + (Repeat(s, n - 1) + s);
    }
  }

  // ---------------------------------------------------------------- '%d'

  function Digit(d: nat): char
    requires d < 10
  {
    "0123456789"[d]
  }

  /** `'%d' % n` for a natural number. */
  function Decimal(n: nat): (r: string)
    ensures r != []
    ensures forall k :: 0 <= k < |r| ==> '0' <= r[k] <= '9'
    ensures |r| > 1 ==> r[0] != '0'
  {
    if n < 10 then [Digit(n)] else Decimal(n / 10) + [Digit(n % 10)]
  }

  /** The number a string of decimal digits denotes. */
  function DecimalValue(s: string): nat
    requires forall k :: 0 <= k < |s| ==> '0' <= s[k] <= '9'
  {
    if s == [] then 0 else 10 * DecimalValue(s[..|s| - 1]) + (s[|s| - 1] as int - '0' as int)
  }

  /** Reading back what `Decimal` printed gives the number, so distinct numbers print differently. */
  lemma {:induction false} DecimalRoundTrip(n: nat)
    ensures DecimalValue(Decimal(n)) == n
  {
    if n >= 10 {
      DecimalRoundTrip(n / 10);
      var r := Decimal(n);
      assert r[..|r| - 1] == Decimal(n / 10);
    }
  }
}
