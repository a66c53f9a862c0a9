/** The pieces of JavaScript's string library the client relies on:
    `String.prototype.trim`, the regular-expression class `\s`, `\d`, and
    `split` on a one-character separator. Characters are Unicode scalar
    values; JavaScript counts UTF-16 code units, which only differs for
    characters outside the Basic Multilingual Plane. */
module JsText {

  /** The WhiteSpace and LineTerminator characters of ECMAScript: exactly the
      set `trim` removes and `\s` matches. */
  predicate IsJsWhitespace(c: char) {
    var n := c as int;
    n == 0x09 || n == 0x0A || n == 0x0B || n == 0x0C || n == 0x0D || n == 0x20
    || n == 0xA0 || n == 0x1680 || (0x2000 <= n <= 0x200A) || n == 0x2028
    || n == 0x2029 || n == 0x202F || n == 0x205F || n == 0x3000 || n == 0xFEFF
  }

  /** The class `\d`: ASCII digits only. */
  predicate IsDigit(c: char) {
    '0' <= c <= '9'
  }

  predicate AllWhitespace(s: string) {
    forall i :: 0 <= i < |s| ==> IsJsWhitespace(s[i])
  }

  /** How many white-space characters `s` starts with. */
  function LeadingBlanks(s: string): (n: nat)
    ensures n <= |s|
    ensures forall k :: 0 <= k < n ==> IsJsWhitespace(s[k])
    ensures n < |s| ==> !IsJsWhitespace(s[n])
  {
    if |s| > 0 && IsJsWhitespace(s[0]) then
      var m := LeadingBlanks(s[1..]);
      assert forall k :: 1 <= k < m + 1 ==> s[k] == s[1..][k - 1];
      m + 1
    else 0
  }

  /** How many white-space characters `s` ends with. */
  function TrailingBlanks(s: string): (n: nat)
    ensures n <= |s|
    ensures forall k :: |s| - n <= k < |s| ==> IsJsWhitespace(s[k])
    ensures n < |s| ==> !IsJsWhitespace(s[|s| - 1 - n])
  {
    if |s| > 0 && IsJsWhitespace(s[|s| - 1]) then
      var m := TrailingBlanks(s[..|s| - 1]);
      assert forall k :: |s| - 1 - m <= k < |s| - 1 ==> s[k] == s[..|s| - 1][k];
      m + 1
    else 0
  }

  /** `String.prototype.trimStart`: `s` from its first non-white-space character on. */
  function TrimStart(s: string): (r: string)
    ensures r == [] || !IsJsWhitespace(r[0])
  {
    s[LeadingBlanks(s)..]
  }

  /** `String.prototype.trimEnd`: `s` up to its last non-white-space character. */
  function TrimEnd(s: string): (r: string)
    ensures r == [] || !IsJsWhitespace(r[|r| - 1])
  {
    s[..|s| - TrailingBlanks(s)]
  }

  /** `String.prototype.trim`: neither end of the result is white space. */
  function Trim(s: string): (r: string)
    ensures r == [] || (!IsJsWhitespace(r[0]) && !IsJsWhitespace(r[|r| - 1]))
  {
    var t := TrimStart(s);
    var r := TrimEnd(t);
    assert r != [] ==> r[0] == t[0];
    r
  }

  /** Where the trimmed text sits in `s`: after the leading blanks and before
      the trailing blanks of what remains. */
  lemma {:induction false} TrimBounds(s: string)
    ensures var a := LeadingBlanks(s);
            var e := |s| - TrailingBlanks(s[a..]);
            && a <= e <= |s|
            && Trim(s) == s[a..e]
  {
    var a := LeadingBlanks(s);
    var t := s[a..];
    assert TrimStart(s) == t;
    assert Trim(s) == t[..|t| - TrailingBlanks(t)];
  }

  /** White space at the end of a suffix of `s` is white space at the end of `s`. */
  lemma {:induction false} BlankTailOfSuffix(s: string, a: nat, n: nat)
    requires a <= |s| && n <= |s| - a
    requires forall k :: |s| - a - n <= k < |s| - a ==> IsJsWhitespace(s[a..][k])
    ensures forall k :: |s| - n <= k < |s| ==> IsJsWhitespace(s[k])
  {
    forall k | |s| - n <= k < |s|
      ensures IsJsWhitespace(s[k])
    {
      assert s[k] == s[a..][k - a];
    }
  }

  /** The trimmed text is the middle of `s`, and only white space was cut off
      on either side. */
  lemma {:induction false} TrimIsInfix(s: string)
    ensures var a := LeadingBlanks(s);
            var e := a + |Trim(s)|;
            && e <= |s|
            && Trim(s) == s[a..e]
            && (forall k :: 0 <= k < a ==> IsJsWhitespace(s[k]))
            && (forall k :: e <= k < |s| ==> IsJsWhitespace(s[k]))
  {
    TrimBounds(s);
    var a := LeadingBlanks(s);
    BlankTailOfSuffix(s, a, TrailingBlanks(s[a..]));
  }

  /** A string trims to the empty string exactly when it is all white space. */
  lemma {:induction false} TrimBlankIff(s: string)
    ensures Trim(s) == "" <==> AllWhitespace(s)
  {
    TrimIsInfix(s);
    var a := LeadingBlanks(s);
    assert AllWhitespace(s) ==> a == |s|;
    assert a == |s| ==> TrimStart(s) == "";
  }

  /** `s.split(sep)` for a one-character separator: the pieces between
      separators, at least one, and none containing the separator. */
  function Split(s: string, sep: char): (parts: seq<string>)
    ensures |parts| >= 1
    ensures forall i :: 0 <= i < |parts| ==> sep !in parts[i]
  {
    if |s| == 0 then [""]
    else
      var rest := Split(s[1..], sep);
      if s[0] == sep then [""] + rest
      else [[s[0]] + rest[0]] + rest[1..]
  }

  /** `parts.join(sep)`. */
  function Join(parts: seq<string>, sep: char): string {
    if |parts| == 0 then ""
    else if |parts| == 1 then parts[0]
    else parts[0] + [sep] + Join(parts[1..], sep)
  }

  /** Joining the pieces of a split gives back the original text. */
  lemma {:induction false} JoinSplit(s: string, sep: char)
    ensures Join(Split(s, sep), sep) == s
    decreases |s|
  {
    if |s| > 0 {
      var rest := Split(s[1..], sep);
      JoinSplit(s[1..], sep);
      if s[0] == sep {
        assert Split(s, sep)[1..] == rest;
        assert [s[0]] + s[1..] == s;
      } else {
        var parts := Split(s, sep);
        assert parts[0] == [s[0]] + rest[0];
        if |rest| == 1 {
          assert s == [s[0]] + rest[0];
        } else {
          assert parts[1..] == rest[1..];
          assert Join(rest, sep) == rest[0] + [sep] + Join(rest[1..], sep);
          assert s == [s[0]] + Join(rest, sep);
        }
      }
    }
  }

  /** Splitting text whose head holds no separator keeps the head glued to
      the first piece of the tail. */
  lemma {:induction false} SplitPrefix(p: string, t: string, sep: char)
    requires sep !in p
    ensures Split(p + t, sep) == [p + Split(t, sep)[0]] + Split(t, sep)[1..]
    decreases |p|
  {
    if |p| > 0 {
      assert (p + t)[0] == p[0];
      assert (p + t)[1..] == p[1..] + t;
      SplitPrefix(p[1..], t, sep);
      assert [p[0]] + (p[1..] + Split(t, sep)[0]) == p + Split(t, sep)[0];
    } else {
      assert p + t == t;
      assert p + Split(t, sep)[0] == Split(t, sep)[0];
      assert Split(t, sep) == [Split(t, sep)[0]] + Split(t, sep)[1..];
    }
  }

  /** Splitting a join of separator-free pieces gives the pieces back. */
  lemma {:induction false} SplitJoin(parts: seq<string>, sep: char)
    requires |parts| >= 1
    requires forall i :: 0 <= i < |parts| ==> sep !in parts[i]
    ensures Split(Join(parts, sep), sep) == parts
    decreases |parts|
  {
    if |parts| == 1 {
      SplitPrefix(parts[0], "", sep);
      assert parts[0] + "" == parts[0];
    } else {
      var tail := Join(parts[1..], sep);
      SplitJoin(parts[1..], sep);
      assert parts[0] + [sep] + tail == parts[0] + ([sep] + tail);
      SplitPrefix(parts[0], [sep] + tail, sep);
      assert ([sep] + tail)[1..] == tail;
      assert Split([sep] + tail, sep) == [""] + parts[1..];
      assert parts[0] + "" == parts[0];
      assert parts == [parts[0]] + parts[1..];
    }
  }

  /** A join is all white space exactly when every piece is, provided the
      separator itself is white space. */
  lemma {:induction false} JoinAllWhitespace(parts: seq<string>, sep: char)
    requires IsJsWhitespace(sep)
    ensures AllWhitespace(Join(parts, sep)) <==> forall i :: 0 <= i < |parts| ==> AllWhitespace(parts[i])
    decreases |parts|
  {
    if |parts| > 1 {
      JoinAllWhitespace(parts[1..], sep);
      var j := Join(parts[1..], sep);
      var whole := parts[0] + [sep] + j;
      assert forall k :: 0 <= k < |parts[0]| ==> whole[k] == parts[0][k];
      assert forall k :: 0 <= k < |j| ==> whole[|parts[0]| + 1 + k] == j[k];
      if AllWhitespace(whole) {
        forall i | 0 <= i < |parts|
          ensures AllWhitespace(parts[i])
        {
          if i > 0 {
            assert parts[i] == parts[1..][i - 1];
          }
        }
      }
      if forall i :: 0 <= i < |parts| ==> AllWhitespace(parts[i]) {
        assert forall i :: 0 <= i < |parts[1..]| ==> AllWhitespace(parts[1..][i]);
        assert AllWhitespace(whole);
      }
    }
  }
}
