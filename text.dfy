/**
 * The JavaScript string built-ins the calculator relies on, over `string`: `includes`,
 * `slice(0, -1)`, `split(sep)[1]`, `trim()` and the relational comparison of two strings.
 * A Dafny `char` is a Unicode scalar value, whereas JavaScript strings are sequences of
 * UTF-16 code units; the two agree on the ASCII text the calculator's entries are made of.
 */
module Text {
  import opened Wrappers

  /** The number of decimal points in `s`. */
  function DotCount(s: string): nat
  {
    if s == [] then 0 else (if s[0] == '.' then 1 else 0) + DotCount(s[1..])
  }

  /** An entry string in which a second decimal point was never accepted. */
  predicate AtMostOneDot(s: string)
  {
    DotCount(s) <= 1
  }

  lemma {:induction false} DotCountConcat(a: string, b: string)
    ensures DotCount(a + b) == DotCount(a) + DotCount(b)
  {
    if a == [] {
      assert a + b == b;
    } else {
      assert (a + b)[0] == a[0];
      assert (a + b)[1..] == a[1..] + b;
      DotCountConcat(a[1..], b);
    }
  }

  /** `s.includes('.')` holds exactly when `s` has a decimal point to count. */
  lemma {:induction false} DotCountZero(s: string)
    ensures DotCount(s) == 0 <==> '.' !in s
  {
    if s != [] {
      DotCountZero(s[1..]);
      assert s == [s[0]] + s[1..];
    }
  }

  /** Dropping the last character (`slice(0, -1)`) never adds a decimal point. */
  lemma DotCountDropLast(s: string)
    requires s != []
    ensures DotCount(s[..|s| - 1]) <= DotCount(s)
  {
    assert s == s[..|s| - 1] + [s[|s| - 1]];
    DotCountConcat(s[..|s| - 1], [s[|s| - 1]]);
  }

  /** The index of the first `c` in `s`, or -1 (`indexOf`). */
  function IndexOf(s: string, c: char): (i: int)
    ensures -1 <= i < |s|
  {
    if s == [] then -1
    else if s[0] == c then 0
    else
      var j := IndexOf(s[1..], c);
      if j == -1 then -1 else j + 1
  }

  /** `indexOf` finds the first occurrence, and -1 means there is none. */
  lemma {:induction false} IndexOfFindsFirst(s: string, c: char)
    ensures IndexOf(s, c) == -1 <==> c !in s
    ensures 0 <= IndexOf(s, c) ==> s[IndexOf(s, c)] == c && c !in s[..IndexOf(s, c)]
  {
    if s != [] && s[0] != c {
      IndexOfFindsFirst(s[1..], c);
      assert s == [s[0]] + s[1..];
      var j := IndexOf(s[1..], c);
      if j >= 0 {
        assert s[..j + 1] == [s[0]] + s[1..][..j];
      }
    }
  }

  /**
   * `s.split(sep)[1]`: the text between the first and the second `sep` (or the end of `s`),
   * and `undefined` when `s` has no `sep` at all.
   */
  function SplitSecond(s: string, sep: char): Option<string>
  {
    var i := IndexOf(s, sep);
    if i < 0 then None
    else
      var rest := s[i + 1..];
      var j := IndexOf(rest, sep);
      Some(if j < 0 then rest else rest[..j])
  }

  /** The second field exists exactly when `s` holds a separator, and holds none itself. */
  lemma SplitSecondIsField(s: string, sep: char)
    ensures SplitSecond(s, sep).None? <==> sep !in s
    ensures SplitSecond(s, sep).Some? ==> sep !in SplitSecond(s, sep).value
  {
    IndexOfFindsFirst(s, sep);
    var i := IndexOf(s, sep);
    if i >= 0 {
      IndexOfFindsFirst(s[i + 1..], sep);
    }
  }

  /** Splitting `a + sep + b` yields `b` as second field when neither part holds `sep`. */
  lemma SplitSecondAt(a: string, sep: char, b: string)
    requires sep !in a && sep !in b
    ensures SplitSecond(a + [sep] + b, sep) == Some(b)
  {
    var s := a + [sep] + b;
    IndexOfFindsFirst(s, sep);
    var i := IndexOf(s, sep);
    assert s[|a|] == sep;
    assert s[i + 1..] == b;
    IndexOfFindsFirst(b, sep);
  }

  /** The characters `String.prototype.trim` removes: white space and line terminators. */
  predicate IsWhitespace(c: char)
  {
    c in {' ', '\t', '\n', '\r', '\U{000B}', '\U{000C}', '\U{00A0}', '\U{1680}',
          '\U{2000}', '\U{2001}', '\U{2002}', '\U{2003}', '\U{2004}', '\U{2005}',
          '\U{2006}', '\U{2007}', '\U{2008}', '\U{2009}', '\U{200A}', '\U{2028}',
          '\U{2029}', '\U{202F}', '\U{205F}', '\U{3000}', '\U{FEFF}'}
  }

  predicate AllWhitespace(s: string)
  {
    forall k :: 0 <= k < |s| ==> IsWhitespace(s[k])
  }

  /** `trimStart`: white space removed from the start. */
  function TrimStart(s: string): string
  {
    if s != [] && IsWhitespace(s[0]) then TrimStart(s[1..]) else s
  }

  /** `trimEnd`: white space removed from the end. */
  function TrimEnd(s: string): string
  {
    if s != [] && IsWhitespace(s[|s| - 1]) then TrimEnd(s[..|s| - 1]) else s
  }

  /** `trimStart` removes exactly the longest all-white-space prefix. */
  lemma {:induction false} TrimStartDropsPrefix(s: string)
    ensures |TrimStart(s)| <= |s| && TrimStart(s) == s[|s| - |TrimStart(s)|..]
    ensures TrimStart(s) == [] || !IsWhitespace(TrimStart(s)[0])
    ensures AllWhitespace(s[..|s| - |TrimStart(s)|])
  {
    if s != [] && IsWhitespace(s[0]) {
      TrimStartDropsPrefix(s[1..]);
      var r := TrimStart(s[1..]);
      assert s[..|s| - |r|] == [s[0]] + s[1..][..|s| - 1 - |r|];
    }
  }

  /** `trimEnd` removes exactly the longest all-white-space suffix. */
  lemma {:induction false} TrimEndDropsSuffix(s: string)
    ensures |TrimEnd(s)| <= |s| && TrimEnd(s) == s[..|TrimEnd(s)|]
    ensures TrimEnd(s) == [] || !IsWhitespace(TrimEnd(s)[|TrimEnd(s)| - 1])
    ensures AllWhitespace(s[|TrimEnd(s)|..])
  {
    if s != [] && IsWhitespace(s[|s| - 1]) {
      TrimEndDropsSuffix(s[..|s| - 1]);
      var r := TrimEnd(s[..|s| - 1]);
      assert s[|r|..] == s[..|s| - 1][|r|..] + [s[|s| - 1]];
    }
  }

  /** `trim()`: white space removed from both ends. */
  function Trim(s: string): string
  {
    TrimEnd(TrimStart(s))
  }

  /** Trimming gives back exactly the padded text when it neither begins nor ends with white space. */
  lemma TrimPadded(pre: string, v: string, post: string)
    requires AllWhitespace(pre) && AllWhitespace(post)
    requires v != [] && !IsWhitespace(v[0]) && !IsWhitespace(v[|v| - 1])
    ensures Trim(pre + v + post) == v
  {
    var s := pre + v + post;
    TrimStartDropsPrefix(s);
    var t := TrimStart(s);
    var k := |s| - |t|;
    assert s[|pre|] == v[0];
    assert t == v + post;
    TrimEndDropsSuffix(t);
    var u := TrimEnd(t);
    var e := |u|;
    assert t[|v| - 1] == v[|v| - 1];
    assert u == v;
  }

  /**
   * `a <= b` on two JavaScript strings: lexicographic order of code units,
   * a proper prefix coming first.
   */
  predicate LessOrEqual(a: string, b: string)
  {
    a == [] || (b != [] && (a[0] < b[0] || (a[0] == b[0] && LessOrEqual(a[1..], b[1..]))))
  }

  /**
   * The keyboard test `key >= '0' && key <= '9'` admits a key exactly when it starts with
   * a digit below 9, or is the single character 9.
   */
  lemma DigitKeyRange(key: string)
    ensures LessOrEqual("0", key) && LessOrEqual(key, "9")
            <==> key != [] && '0' <= key[0] && (key[0] < '9' || key == "9")
  {
  }
}
