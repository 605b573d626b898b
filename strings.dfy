/**
 * The parts of Python's `str` and `int` that the connection dialog and
 * `add_favorite` rely on: `str.strip()`, `str.split(sep)` followed by
 * dropping empty pieces, and `int(text)` on decimal text.
 */
module Strings {
  import opened Wrappers

  /** Python's `str.isspace` for a single character. */
  predicate IsSpace(c: char) {
    c == ' ' || ('\t' <= c <= '\r') || ('\U{1c}' <= c <= '\U{1f}')
    || c == '\U{85}' || c == '\U{a0}' || c == '\U{1680}'
    || ('\U{2000}' <= c <= '\U{200a}') || c == '\U{2028}' || c == '\U{2029}'
    || c == '\U{202f}' || c == '\U{205f}' || c == '\U{3000}'
  }

  predicate AllSpace(s: string) {
    forall i :: 0 <= i < |s| ==> IsSpace(s[i])
  }

  /** Neither end of `s` is whitespace. */
  predicate Trimmed(s: string) {
    s == [] || (!IsSpace(s[0]) && !IsSpace(s[|s| - 1]))
  }

  /** `s` is `r` with the whitespace run `s[..i]` before it and only whitespace after it. */
  predicate PaddedAt(s: string, i: int, r: string) {
    0 <= i && i + |r| <= |s| && s[i..i + |r|] == r && AllSpace(s[..i]) && AllSpace(s[i + |r|..])
  }

  /** `str.lstrip()`: drops the leading whitespace. */
  function LStrip(s: string): (r: string)
    ensures |r| <= |s|
    ensures r == [] || !IsSpace(r[0])
  {
    if s != [] && IsSpace(s[0]) then LStrip(s[1..]) else s
  }

  /** `str.rstrip()`: drops the trailing whitespace. */
  function RStrip(s: string): (r: string)
    ensures |r| <= |s|
    ensures r == [] || !IsSpace(r[|r| - 1])
  {
    if s != [] && IsSpace(s[|s| - 1]) then RStrip(s[..|s| - 1]) else s
  }

  /** `lstrip` removes a run of whitespace from the front and nothing else. */
  lemma {:induction false} LStripShape(s: string)
    ensures LStrip(s) == s[|s| - |LStrip(s)|..]
    ensures AllSpace(s[..|s| - |LStrip(s)|])
  {
    if s != [] && IsSpace(s[0]) {
      LStripShape(s[1..]);
      var n := |s| - |LStrip(s)|;
      assert s[1..][n - 1..] == s[n..];
      assert forall i :: 1 <= i < n ==> s[..n][i] == s[1..][..n - 1][i - 1];
    }
  }

  /** `rstrip` removes a run of whitespace from the back and nothing else. */
  lemma {:induction false} RStripShape(s: string)
    ensures RStrip(s) == s[..|RStrip(s)|]
    ensures AllSpace(s[|RStrip(s)|..])
  {
    if s != [] && IsSpace(s[|s| - 1]) {
      var s' := s[..|s| - 1];
      RStripShape(s');
      var n := |RStrip(s)|;
      assert s'[..n] == s[..n];
      assert s[n..] == s'[n..] + [s[|s| - 1]];
    }
  }

  /** `str.strip()`: the text between the leading and the trailing whitespace. */
  function Strip(s: string): (r: string)
    ensures |r| <= |s|
    ensures Trimmed(r)
  {
    var l := LStrip(s);
    RStripShape(l);
    RStrip(l)
  }

  /** `strip` keeps a contiguous part of the text and drops only whitespace around it. */
  lemma StripShape(s: string)
    ensures exists i :: PaddedAt(s, i, Strip(s))
  {
    LStripShape(s);
    RStripShape(LStrip(s));
    PaddedFrom(s, LStrip(s), Strip(s));
  }

  /** A whitespace run, then `l`; `l` is `r` then a whitespace run. */
  lemma PaddedFrom(s: string, l: string, r: string)
    requires |l| <= |s| && l == s[|s| - |l|..] && AllSpace(s[..|s| - |l|])
    requires |r| <= |l| && r == l[..|r|] && AllSpace(l[|r|..])
    ensures PaddedAt(s, |s| - |l|, r)
  {
    var i := |s| - |l|;
    assert s[i..i + |r|] == s[i..][..|r|];
    assert s[i + |r|..] == s[i..][|r|..];
  }

  /** Whitespace around a text with no whitespace at its ends is exactly what `strip` removes. */
  lemma {:induction false} StripPadded(pre: string, t: string, post: string)
    requires AllSpace(pre) && AllSpace(post) && Trimmed(t)
    ensures Strip(pre + t + post) == t
  {
    var s := pre + t + post;
    assert LStrip(s) == LStrip(t + post) by {
      assert s == pre + (t + post);
      LStripPrefix(pre, t + post);
    }
    if t == [] {
      assert LStrip(t + post) == [] by {
        assert t + post == post + [];
        LStripPrefix(post, []);
      }
    } else {
      assert LStrip(t + post) == t + post by {
        assert (t + post)[0] == t[0];
      }
      RStripSuffix(t, post);
    }
  }

  lemma {:induction false} LStripPrefix(pre: string, s: string)
    requires AllSpace(pre)
    ensures LStrip(pre + s) == LStrip(s)
  {
    if pre != [] {
      var t := pre + s;
      assert t[0] == pre[0];
      assert t[1..] == pre[1..] + s;
      LStripPrefix(pre[1..], s);
    } else {
      assert pre + s == s;
    }
  }

  lemma {:induction false} RStripSuffix(s: string, post: string)
    requires AllSpace(post)
    requires s != [] && !IsSpace(s[|s| - 1])
    ensures RStrip(s + post) == s
  {
    if post != [] {
      var n := |s + post|;
      assert (s + post)[..n - 1] == s + post[..|post| - 1];
      RStripSuffix(s, post[..|post| - 1]);
    } else {
      assert s + post == s;
    }
  }

  // ---------------------------------------------------------------- split

  /** `s.split(sep)`: the pieces between separators, always at least one. */
  function Split(s: string, sep: char): (parts: seq<string>)
    ensures |parts| >= 1
    decreases |s|
  {
    if s == [] then [[]]
    else
      var rest := Split(s[1..], sep);
      if s[0] == sep then [[]] + rest else [[s[0]] + rest[0]] + rest[1..]
  }

  /** No piece of a split contains the separator. */
  lemma {:induction false} SplitPieces(s: string, sep: char)
    ensures forall k :: 0 <= k < |Split(s, sep)| ==> sep !in Split(s, sep)[k]
    decreases |s|
  {
    if s != [] {
      SplitPieces(s[1..], sep);
    }
  }

  /** `sep.join(parts)`. */
  function Join(parts: seq<string>, sep: char): string
    requires |parts| >= 1
  {
    if |parts| == 1 then parts[0] else parts[0] + [sep] + Join(parts[1..], sep)
  }

  lemma JoinFront(x: string, parts: seq<string>, sep: char)
    requires |parts| >= 1
    ensures Join([x + parts[0]] + parts[1..], sep) == x + Join(parts, sep)
  {
    var ps := [x + parts[0]] + parts[1..];
    assert ps[1..] == parts[1..];
  }

  /** Splitting loses nothing: joining the pieces gives the text back. */
  lemma {:induction false} JoinSplit(s: string, sep: char)
    ensures Join(Split(s, sep), sep) == s
    decreases |s|
  {
    if s != [] {
      var rest := Split(s[1..], sep);
      JoinSplit(s[1..], sep);
      if s[0] == sep {
        assert ([[]] + rest)[1..] == rest;
      } else {
        JoinFront([s[0]], rest, sep);
      }
      assert s == [s[0]] + s[1..];
    }
  }

  /** A text without the separator is a single piece. */
  lemma {:induction false} SplitWhole(s: string, sep: char)
    requires sep !in s
    ensures Split(s, sep) == [s]
    decreases |s|
  {
    if s != [] {
      SplitWhole(s[1..], sep);
      assert s == [s[0]] + s[1..];
    }
  }

  /** Splitting at one separator: the pieces on either side, the last of the left next to the first of the right. */
  lemma {:induction false} SplitConcat(p: string, sep: char, q: string)
    ensures Split(p + [sep] + q, sep) == Split(p, sep) + Split(q, sep)
    decreases |p|
  {
    var s := p + [sep] + q;
    if p == [] {
      assert s[1..] == q;
    } else {
      assert s[0] == p[0] && s[1..] == p[1..] + [sep] + q;
      SplitConcat(p[1..], sep, q);
      var a, b := Split(p[1..], sep), Split(q, sep);
      if p[0] != sep {
        assert (a + b)[0] == a[0] && (a + b)[1..] == a[1..] + b;
      }
    }
  }

  /** Pieces free of the separator are recovered by splitting their join. */
  lemma {:induction false} SplitJoin(parts: seq<string>, sep: char)
    requires |parts| >= 1
    requires forall k :: 0 <= k < |parts| ==> sep !in parts[k]
    ensures Split(Join(parts, sep), sep) == parts
  {
    SplitWhole(parts[0], sep);
    if |parts| > 1 {
      SplitJoin(parts[1..], sep);
      SplitConcat(parts[0], sep, Join(parts[1..], sep));
    }
  }

  /** The pieces that are not empty, in order (`[p for p in parts if p]`). */
  function NonEmpty(parts: seq<string>): (r: seq<string>)
    ensures |r| <= |parts|
    ensures forall k :: 0 <= k < |r| ==> r[k] != [] && r[k] in parts
  {
    if parts == [] then []
    else (if parts[0] == [] then [] else [parts[0]]) + NonEmpty(parts[1..])
  }

  lemma {:induction false} NonEmptyKeepsAll(parts: seq<string>)
    requires forall k :: 0 <= k < |parts| ==> parts[k] != []
    ensures NonEmpty(parts) == parts
  {
    if parts != [] {
      NonEmptyKeepsAll(parts[1..]);
    }
  }

  /** The folder segments of `add_favorite`: the non-empty pieces of `path.split('/')`. */
  function Segments(path: string): (r: seq<string>)
    ensures forall k :: 0 <= k < |r| ==> r[k] != [] && '/' !in r[k]
  {
    SplitPieces(path, '/');
    NonEmpty(Split(path, '/'))
  }

  /** A path written as non-empty segments joined by `/` is read back as those segments. */
  lemma SegmentsOfJoin(segs: seq<string>)
    requires |segs| >= 1
    requires forall k :: 0 <= k < |segs| ==> segs[k] != [] && '/' !in segs[k]
    ensures Segments(Join(segs, '/')) == segs
  {
    SplitJoin(segs, '/');
    NonEmptyKeepsAll(segs);
  }

  /** An empty path names the top level. */
  lemma SegmentsOfEmpty()
    ensures Segments("") == []
  {
    assert Split("", '/') == [""];
  }

  lemma {:induction false} NonEmptyConcat(a: seq<string>, b: seq<string>)
    ensures NonEmpty(a + b) == NonEmpty(a) + NonEmpty(b)
  {
    if a == [] {
      assert a + b == b;
    } else {
      assert (a + b)[1..] == a[1..] + b;
      NonEmptyConcat(a[1..], b);
    }
  }

  /**
   * The segments of `p/q` are those of `p` followed by those of `q`; since
   * the empty path has none, doubled, leading and trailing slashes are
   * ignored.
   */
  lemma SegmentsConcat(p: string, q: string)
    ensures Segments(p + "/" + q) == Segments(p) + Segments(q)
  {
    SplitConcat(p, '/', q);
    NonEmptyConcat(Split(p, '/'), Split(q, '/'));
  }

  // ---------------------------------------------------------------- int()

  predicate IsDigit(c: char) {
    '0' <= c <= '9'
  }

  predicate AllDigits(s: string) {
    forall i :: 0 <= i < |s| ==> IsDigit(s[i])
  }

  /** The text `int()` accepts once surrounding whitespace is removed: an optional sign and digits. */
  predicate IntSyntax(t: string) {
    (t != [] && AllDigits(t))
    || (|t| >= 2 && (t[0] == '+' || t[0] == '-') && AllDigits(t[1..]))
  }

  function DigitValue(c: char): nat
    requires IsDigit(c)
  {
    (c as int) - ('0' as int)
  }

  function DigitChar(d: nat): char
    requires d < 10
  {
    ('0' as int + d) as char
  }

  /** The value of a string of decimal digits, most significant first. */
  function DigitsValue(ds: string): nat
    requires AllDigits(ds)
  {
    if ds == [] then 0 else 10 * DigitsValue(ds[..|ds| - 1]) + DigitValue(ds[|ds| - 1])
  }

  /** `int(text)` on text with no whitespace at its ends. */
  function ReadInt(t: string): (r: Option<int>)
    ensures r.Some? <==> IntSyntax(t)
  {
    if t != [] && AllDigits(t) then Some(DigitsValue(t))
    else if |t| >= 2 && (t[0] == '+' || t[0] == '-') && AllDigits(t[1..]) then
      var v: int := DigitsValue(t[1..]);
      Some(if t[0] == '-' then -v else v)
    else None
  }

  /**
   * The information separators U+001C to U+001F: whitespace to `str.isspace`
   * and `str.strip`, but not among the characters `int()` skips.
   */
  predicate IsSeparator(c: char) {
    '\U{1c}' <= c <= '\U{1f}'
  }

  predicate NoSeparator(s: string) {
    forall i :: 0 <= i < |s| ==> !IsSeparator(s[i])
  }

  /** The whitespace `int()` skips around the number. */
  predicate AllIntSpace(s: string) {
    forall i :: 0 <= i < |s| ==> IsSpace(s[i]) && !IsSeparator(s[i])
  }

  /**
   * `int(text)`: `None` where Python raises `ValueError`. `int()` skips
   * whitespace other than the separators; as a separator can never be part
   * of the number either, text holding one is rejected wherever it sits.
   */
  function ParseInt(text: string): (r: Option<int>)
    ensures r.Some? <==> IntSyntax(Strip(text)) && NoSeparator(text)
  {
    if NoSeparator(text) then ReadInt(Strip(text)) else None
  }

  /** The decimal rendering of a natural number (`str(n)`). */
  function NatToDecimal(n: nat): (s: string)
    ensures s != [] && AllDigits(s)
  {
    if n < 10 then [DigitChar(n)] else NatToDecimal(n / 10) + [DigitChar(n % 10)]
  }

  /** The decimal rendering of an integer (`str(n)`). */
  function IntToDecimal(n: int): string {
    if n < 0 then "-" + NatToDecimal(-n) else NatToDecimal(n)
  }

  lemma {:induction false} NatToDecimalValue(n: nat)
    ensures DigitsValue(NatToDecimal(n)) == n
  {
    var s := NatToDecimal(n);
    if n >= 10 {
      NatToDecimalValue(n / 10);
      assert s[..|s| - 1] == NatToDecimal(n / 10);
    }
  }

  /** The rendering of an integer starts with a digit or `-`, ends with a digit and holds no separator. */
  lemma DecimalTrimmed(n: int)
    ensures Trimmed(IntToDecimal(n))
    ensures NoSeparator(IntToDecimal(n))
  {
    var d := NatToDecimal(if n < 0 then -n else n);
    assert IsDigit(d[0]) && IsDigit(d[|d| - 1]);
    if n < 0 {
      assert IntToDecimal(n)[|IntToDecimal(n)| - 1] == d[|d| - 1];
      assert forall i :: 1 <= i < |IntToDecimal(n)| ==> IntToDecimal(n)[i] == d[i - 1];
    }
  }

  lemma ReadIntDecimal(n: int)
    ensures ReadInt(IntToDecimal(n)) == Some(n)
  {
    var t := IntToDecimal(n);
    if n < 0 {
      var d := NatToDecimal(-n);
      NatToDecimalValue(-n);
      assert t[1..] == d;
      assert !IsDigit(t[0]);
    } else {
      NatToDecimalValue(n);
    }
  }

  /**
   * `int()` reads back any integer from its decimal rendering, with any
   * whitespace it skips around it, and checks no range: `int(str(n)) == n`.
   */
  lemma ParseIntDecimal(n: int, pre: string, post: string)
    requires AllIntSpace(pre) && AllIntSpace(post)
    ensures ParseInt(pre + IntToDecimal(n) + post) == Some(n)
  {
    var t := IntToDecimal(n);
    DecimalTrimmed(n);
    assert AllSpace(pre) && AllSpace(post);
    StripPadded(pre, t, post);
    assert NoSeparator(pre + t + post) by {
      var s := pre + t + post;
      forall i | 0 <= i < |s|
        ensures !IsSeparator(s[i])
      {
        if i < |pre| {
          assert s[i] == pre[i];
        } else if i < |pre| + |t| {
          assert s[i] == t[i - |pre|];
        } else {
          assert s[i] == post[i - |pre| - |t|];
        }
      }
    }
    ReadIntDecimal(n);
  }

  /** A separator anywhere in the text makes `int()` fail, whitespace to `strip` though it is. */
  lemma SeparatorRejected(pre: string, c: char, post: string)
    requires IsSeparator(c)
    ensures IsSpace(c)
    ensures ParseInt(pre + [c] + post) == None
  {
    assert (pre + [c] + post)[|pre|] == c;
  }
}
