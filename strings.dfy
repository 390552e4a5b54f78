/** The three JavaScript string operations the command interpreter relies on:
    String.prototype.trim, String.prototype.toLowerCase and
    String.prototype.split with the one-space separator " ". */
module Strings {

  /** The ECMAScript WhiteSpace and LineTerminator code points: exactly the
      characters `trim` removes. */
  predicate IsWhitespace(ch: char) {
    || ch == '\t' || ch == '\n' || ch == '\U{000B}' || ch == '\U{000C}' || ch == '\r'
    || ch == ' ' || ch == '\U{00A0}' || ch == '\U{1680}'
    || ('\U{2000}' <= ch <= '\U{200A}')
    || ch == '\U{2028}' || ch == '\U{2029}' || ch == '\U{202F}' || ch == '\U{205F}'
    || ch == '\U{3000}' || ch == '\U{FEFF}'
  }

  predicate AllWhitespace(s: string) {
    forall i :: 0 <= i < |s| ==> IsWhitespace(s[i])
  }

  /** A string that trimming leaves alone: empty, or with non-white ends. */
  predicate HasSolidEnds(s: string) {
    s == [] || (!IsWhitespace(s[0]) && !IsWhitespace(s[|s| - 1]))
  }

  /** Drops the leading whitespace. */
  function TrimStart(s: string): (r: string)
    ensures |r| <= |s| && r == s[|s| - |r|..]
    ensures AllWhitespace(s[..|s| - |r|])
    ensures r == [] || !IsWhitespace(r[0])
    decreases |s|
  {
    if |s| > 0 && IsWhitespace(s[0]) then
      var r := TrimStart(s[1..]);
      assert s[..|s| - |r|] == [s[0]] + s[1..][..|s| - 1 - |r|];
      r
    else
      s
  }

  /** Drops the trailing whitespace. */
  function TrimEnd(s: string): (r: string)
    ensures |r| <= |s| && r == s[..|r|]
    ensures AllWhitespace(s[|r|..])
    ensures r == [] || !IsWhitespace(r[|r| - 1])
    decreases |s|
  {
    if |s| > 0 && IsWhitespace(s[|s| - 1]) then
      var r := TrimEnd(s[..|s| - 1]);
      assert s[|r|..] == s[..|s| - 1][|r|..] + [s[|s| - 1]];
      r
    else
      s
  }

  /** `s.trim()`: the input with its whitespace padding on both sides cut
      off. Together with TrimOfPadded this pins the result down: the only
      string with non-white ends that the input is a padding of. */
  function Trim(s: string): (r: string)
    ensures HasSolidEnds(r)
    ensures exists w1, w2 :: AllWhitespace(w1) && AllWhitespace(w2) && s == w1 + r + w2
    ensures r == [] <==> AllWhitespace(s)
  {
    var t := TrimStart(s);
    var r := TrimEnd(t);
    var w1, w2 := s[..|s| - |t|], t[|r|..];
    TrimParts(s, t, r, w1, w2);
    assert AllWhitespace(w1) && AllWhitespace(w2) && s == w1 + r + w2;
    r
  }

  lemma TrimParts(s: string, t: string, r: string, w1: string, w2: string)
    requires |t| <= |s| && t == s[|s| - |t|..] && w1 == s[..|s| - |t|] && AllWhitespace(w1)
    requires |r| <= |t| && r == t[..|r|] && w2 == t[|r|..] && AllWhitespace(w2)
    requires r == [] || (!IsWhitespace(r[0]) && !IsWhitespace(r[|r| - 1]))
    ensures s == w1 + r + w2
    ensures HasSolidEnds(r)
    ensures r == [] <==> AllWhitespace(s)
  {
    assert t == r + w2;
    assert s == w1 + t;
    if r == [] {
      assert s == w1 + w2;
      WhitespaceConcat(w1, w2);
    } else {
      assert r[0] == s[|w1|];
    }
  }

  lemma WhitespaceConcat(a: string, b: string)
    requires AllWhitespace(a) && AllWhitespace(b)
    ensures AllWhitespace(a + b)
  {
    forall i | 0 <= i < |a + b| ensures IsWhitespace((a + b)[i]) {
      if i >= |a| { assert (a + b)[i] == b[i - |a|]; }
    }
  }

  lemma {:induction false} TrimStartSkips(w: string, x: string)
    requires AllWhitespace(w) && (x == [] || !IsWhitespace(x[0]))
    ensures TrimStart(w + x) == x
    decreases |w|
  {
    if w != [] {
      assert (w + x)[1..] == w[1..] + x;
      TrimStartSkips(w[1..], x);
    } else {
      assert w + x == x;
    }
  }

  lemma {:induction false} TrimEndSkips(x: string, w: string)
    requires AllWhitespace(w) && (x == [] || !IsWhitespace(x[|x| - 1]))
    ensures TrimEnd(x + w) == x
    decreases |w|
  {
    if w != [] {
      assert (x + w)[..|x + w| - 1] == x + w[..|w| - 1];
      TrimEndSkips(x, w[..|w| - 1]);
    } else {
      assert x + w == x;
    }
  }

  /** Uniqueness half of Trim's specification: whitespace padded around a
      string with non-white ends is exactly what `trim` removes. */
  lemma TrimOfPadded(w1: string, m: string, w2: string)
    requires AllWhitespace(w1) && AllWhitespace(w2) && HasSolidEnds(m)
    ensures Trim(w1 + m + w2) == m
  {
    if m == [] {
      assert w1 + m + w2 == w1 + w2 + [];
      TrimStartSkips(w1 + w2, []);
    } else {
      assert w1 + m + w2 == w1 + (m + w2);
      TrimStartSkips(w1, m + w2);
      TrimEndSkips(m, w2);
    }
  }

  /** A string with non-white ends is its own trim. */
  lemma TrimSolid(m: string)
    requires HasSolidEnds(m)
    ensures Trim(m) == m
  {
    assert [] + m + [] == m;
    TrimOfPadded([], m, []);
  }

  /** Padding more whitespace around a string does not change its trim. */
  lemma TrimIgnoresPadding(w1: string, s: string, w2: string)
    requires AllWhitespace(w1) && AllWhitespace(w2)
    ensures Trim(w1 + s + w2) == Trim(s)
  {
    var m := Trim(s);
    var v1, v2 :| AllWhitespace(v1) && AllWhitespace(v2) && s == v1 + m + v2;
    WhitespaceConcat(w1, v1);
    WhitespaceConcat(v2, w2);
    Regroup(w1, v1, m, v2, w2);
    TrimOfPadded(w1 + v1, m, v2 + w2);
  }

  lemma Regroup(a: string, b: string, c: string, d: string, e: string)
    ensures a + (b + c + d) + e == (a + b) + c + (d + e)
  {
  }

  /** Trimming twice is trimming once. */
  lemma TrimIdempotent(s: string)
    ensures Trim(Trim(s)) == Trim(s)
  {
    TrimSolid(Trim(s));
  }

  /** The character mapping of `toLowerCase` for the ASCII and Latin-1
      capitals: A-Z and U+00C0..U+00DE except the multiplication sign U+00D7
      move 32 code points up; every other character is kept. */
  function LowerChar(ch: char): (r: char)
    ensures IsWhitespace(r) <==> IsWhitespace(ch)
    ensures r == ' ' <==> ch == ' '
    ensures !('A' <= r <= 'Z') && !('\U{00C0}' <= r <= '\U{00DE}' && r != '\U{00D7}')
  {
    if 'A' <= ch <= 'Z' || ('\U{00C0}' <= ch <= '\U{00DE}' && ch != '\U{00D7}')
    then (ch as int + 32) as char
    else ch
  }

  /** `s.toLowerCase()`, character by character. */
  function ToLower(s: string): (r: string)
    ensures |r| == |s|
    ensures forall i :: 0 <= i < |s| ==> r[i] == LowerChar(s[i])
  {
    if s == [] then [] else [LowerChar(s[0])] + ToLower(s[1..])
  }

  lemma ToLowerIdempotent(s: string)
    ensures ToLower(ToLower(s)) == ToLower(s)
  {
  }

  lemma ToLowerConcat(a: string, b: string)
    ensures ToLower(a + b) == ToLower(a) + ToLower(b)
  {
  }

  lemma ToLowerAllWhitespace(w: string)
    requires AllWhitespace(w)
    ensures AllWhitespace(ToLower(w))
  {
  }

  lemma ToLowerSolidEnds(m: string)
    requires HasSolidEnds(m)
    ensures HasSolidEnds(ToLower(m))
  {
  }

  /** Lowering letters and trimming whitespace commute, since lowering never
      turns a whitespace character into a non-white one or back. */
  lemma TrimToLowerCommute(s: string)
    ensures Trim(ToLower(s)) == ToLower(Trim(s))
  {
    var m := Trim(s);
    var w1, w2 :| AllWhitespace(w1) && AllWhitespace(w2) && s == w1 + m + w2;
    ToLowerConcat(w1 + m, w2);
    ToLowerConcat(w1, m);
    ToLowerAllWhitespace(w1);
    ToLowerAllWhitespace(w2);
    ToLowerSolidEnds(m);
    TrimOfPadded(ToLower(w1), ToLower(m), ToLower(w2));
  }

  /** `parts.join(' ')`. */
  function Join(parts: seq<string>): (r: string)
    requires |parts| >= 1
  {
    if |parts| == 1 then parts[0] else parts[0] + " " + Join(parts[1..])
  }

  /** `s.split(' ')`: the maximal space-free pieces between the single
      spaces of `s`, so two adjacent spaces give an empty piece and the
      empty string gives one empty piece. */
  function Split(s: string): (r: seq<string>)
    ensures |r| >= 1
    ensures Join(r) == s
    ensures forall k :: 0 <= k < |r| ==> ' ' !in r[k]
    decreases |s|
  {
    if s == [] then
      [""]
    else
      var rest := Split(s[1..]);
      if s[0] == ' ' then
        assert s == " " + Join(rest);
        [""] + rest
      else
        var r := [[s[0]] + rest[0]] + rest[1..];
        assert Join(r) == s by {
          if |rest| > 1 {
            assert r[1..] == rest[1..];
          }
        }
        r
  }

  /** Round trip the other way: splitting a join of space-free pieces gives
      the pieces back. */
  lemma {:induction false} SplitJoin(parts: seq<string>)
    requires |parts| >= 1
    requires forall k :: 0 <= k < |parts| ==> ' ' !in parts[k]
    ensures Split(Join(parts)) == parts
    decreases |Join(parts)|, |parts|
  {
    if |parts| == 1 {
      SplitWord(parts[0]);
    } else {
      SplitJoin(parts[1..]);
      SplitAfterWord(parts[0], Join(parts[1..]));
      assert [parts[0]] + parts[1..] == parts;
    }
  }

  /** A space-free string is a single piece. */
  lemma {:induction false} SplitWord(a: string)
    requires ' ' !in a
    ensures Split(a) == [a]
    decreases |a|
  {
    if a != [] {
      assert ' ' !in a[1..] by {
        forall k | 0 <= k < |a| - 1 ensures a[1..][k] != ' ' { assert a[1..][k] == a[k + 1]; }
      }
      SplitWord(a[1..]);
      assert [a[0]] + a[1..] == a;
    }
  }

  /** A space-free string followed by a space is the first piece. */
  lemma {:induction false} SplitAfterWord(a: string, b: string)
    requires ' ' !in a
    ensures Split(a + " " + b) == [a] + Split(b)
    decreases |a|
  {
    if a == [] {
      assert a + " " + b == " " + b;
      assert (" " + b)[1..] == b;
    } else {
      assert (a + " " + b)[1..] == a[1..] + " " + b;
      assert ' ' !in a[1..] by {
        forall k | 0 <= k < |a| - 1 ensures a[1..][k] != ' ' { assert a[1..][k] == a[k + 1]; }
      }
      SplitAfterWord(a[1..], b);
      assert [a[0]] + a[1..] == a;
    }
  }
}
