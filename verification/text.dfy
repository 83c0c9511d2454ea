/**
 * The Python string operations the path helpers rely on: `str.split(sep)`,
 * `str.strip(chars)` and the truth value of `str.strip()`.
 */
module Text {

  /** `s.split(sep)`: the pieces between occurrences of `sep`, empty pieces included. */
  function Split(s: string, sep: char): (parts: seq<string>)
    ensures |parts| >= 1
    ensures forall i :: 0 <= i < |parts| ==> sep !in parts[i]
  {
    if s == [] then [""]
    else
      var rest := Split(s[1..], sep);
      if s[0] == sep then [""] + rest
      else [[s[0]] + rest[0]] + rest[1..]
  }

  /** `sep.join(parts)`. */
  function Join(parts: seq<string>, sep: char): string
    requires |parts| >= 1
  {
    if |parts| == 1 then parts[0] else parts[0] + [sep] + Join(parts[1..], sep)
  }

  /** Joining the pieces of a split gives back the string. */
  lemma {:induction false} JoinSplit(s: string, sep: char)
    ensures Join(Split(s, sep), sep) == s
  {
    if s != [] {
      JoinSplit(s[1..], sep);
      var rest := Split(s[1..], sep);
      if s[0] != sep {
        if |rest| == 1 {
          assert Split(s, sep) == [[s[0]] + rest[0]];
        } else {
          assert Split(s, sep)[1..] == rest[1..];
        }
      } else {
        assert Split(s, sep)[1..] == rest;
      }
    }
  }

  /** Splitting a join gives back the pieces, as long as no piece holds the separator. */
  lemma {:induction false} SplitJoin(parts: seq<string>, sep: char)
    requires |parts| >= 1
    requires forall i :: 0 <= i < |parts| ==> sep !in parts[i]
    ensures Split(Join(parts, sep), sep) == parts
  {
    if |parts| == 1 {
      SplitWithoutSeparator(parts[0], sep);
    } else {
      SplitJoin(parts[1..], sep);
      SplitAppend(parts[0], Join(parts[1..], sep), sep);
    }
  }

  /** A string free of the separator splits into itself. */
  lemma {:induction false} SplitWithoutSeparator(s: string, sep: char)
    requires sep !in s
    ensures Split(s, sep) == [s]
  {
    if s != [] {
      SplitWithoutSeparator(s[1..], sep);
      assert [s[0]] + s[1..] == s;
    }
  }

  /** Splitting `a + sep + b`, with `a` free of the separator, puts `a` first. */
  lemma {:induction false} SplitAppend(a: string, b: string, sep: char)
    requires sep !in a
    ensures Split(a + [sep] + b, sep) == [a] + Split(b, sep)
  {
    if a == [] {
      assert [] + [sep] + b == [sep] + b;
      assert ([sep] + b)[1..] == b;
    } else {
      SplitAppend(a[1..], b, sep);
      assert (a + [sep] + b)[1..] == a[1..] + [sep] + b;
      assert [a[0]] + a[1..] == a;
    }
  }

  /** `s.lstrip(c)` for a one-character `c`. */
  function StripLeft(s: string, c: char): (r: string)
    ensures |r| <= |s| && r == s[|s| - |r|..]
    ensures forall i :: 0 <= i < |s| - |r| ==> s[i] == c
    ensures r == [] || r[0] != c
  {
    if s != [] && s[0] == c then StripLeft(s[1..], c) else s
  }

  /** `s.rstrip(c)` for a one-character `c`. */
  function StripRight(s: string, c: char): (r: string)
    ensures |r| <= |s| && r == s[..|r|]
    ensures forall i :: |r| <= i < |s| ==> s[i] == c
    ensures r == [] || r[|r| - 1] != c
  {
    if s != [] && s[|s| - 1] == c then StripRight(s[..|s| - 1], c) else s
  }

  /** `s.strip(c)` for a one-character `c`: a stretch of `s` with every `c` around it removed. */
  function Strip(s: string, c: char): (r: string)
    ensures exists i, j ::
              && 0 <= i <= j <= |s| && r == s[i..j]
              && (forall k :: 0 <= k < i ==> s[k] == c)
              && (forall k :: j <= k < |s| ==> s[k] == c)
    ensures r == [] || (r[0] != c && r[|r| - 1] != c)
  {
    var l := StripLeft(s, c);
    var r := StripRight(l, c);
    assert r == s[|s| - |l|..|s| - |l| + |r|];
    r
  }

  /** The characters Python's `str.strip()` removes when given no argument. */
  predicate IsPyWhitespace(ch: char)
  {
    || ch == ' ' || ch == '\t' || ch == '\n' || ch == '\r' || ch == '\U{0B}' || ch == '\U{0C}'
    || ('\U{1C}' <= ch <= '\U{1F}') || ch == '\U{85}' || ch == '\U{A0}' || ch == '\U{1680}'
    || ('\U{2000}' <= ch <= '\U{200A}') || ch == '\U{2028}' || ch == '\U{2029}' || ch == '\U{202F}'
    || ch == '\U{205F}' || ch == '\U{3000}'
  }

  /** `not s.strip()`: the string is empty or holds only whitespace. */
  predicate IsBlank(s: string)
  {
    forall i :: 0 <= i < |s| ==> IsPyWhitespace(s[i])
  }
}
