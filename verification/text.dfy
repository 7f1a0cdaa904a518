/** The JavaScript string operations the resume code relies on: `trim`, the
    regular-expression class `\s`, `split` on one character, `Array.join`, and
    `replace(/\s+/g, c)`. */
module Text {

  /** ECMAScript white space and line terminators: the characters `trim` removes
      and the regular-expression class `\s` matches (section 12.2 and 12.3 of
      ECMA-262). */
  predicate IsSpace(c: char) {
    c in SpaceChars
  }

  const SpaceChars: set<char> := {
    ' ', '\t', '\n', '\r', '\U{B}', '\U{C}', '\U{A0}', '\U{1680}',
    '\U{2000}', '\U{2001}', '\U{2002}', '\U{2003}', '\U{2004}', '\U{2005}',
    '\U{2006}', '\U{2007}', '\U{2008}', '\U{2009}', '\U{200A}',
    '\U{2028}', '\U{2029}', '\U{202F}', '\U{205F}', '\U{3000}', '\U{FEFF}'
  }

  /** Empty or white space only: exactly the strings whose `trim()` is `''`. */
  predicate IsBlank(s: string) {
    forall i :: 0 <= i < |s| ==> IsSpace(s[i])
  }

  predicate HasNoSpace(s: string) {
    forall i :: 0 <= i < |s| ==> !IsSpace(s[i])
  }

  /** Neither starts nor ends with white space. */
  predicate IsTrimmed(s: string) {
    s == [] || (!IsSpace(s[0]) && !IsSpace(s[|s| - 1]))
  }

  predicate EndsWith(s: string, suffix: string) {
    |suffix| <= |s| && s[|s| - |suffix|..] == suffix
  }

  /** The index of the first character at or after `i` that is not white
      space, or `|s|` when there is none. */
  function SkipSpaces(s: string, i: nat): (j: nat)
    requires i <= |s|
    ensures i <= j <= |s|
    ensures forall k :: i <= k < j ==> IsSpace(s[k])
    ensures j < |s| ==> !IsSpace(s[j])
    decreases |s| - i
  {
    if i < |s| && IsSpace(s[i]) then SkipSpaces(s, i + 1) else i
  }

  /** Walking back from `hi` towards `lo`: the index just past the last
      character that is not white space, or `lo` when there is none. */
  function SkipSpacesBack(s: string, lo: nat, hi: nat): (j: nat)
    requires lo <= hi <= |s|
    ensures lo <= j <= hi
    ensures forall k :: j <= k < hi ==> IsSpace(s[k])
    ensures j > lo ==> !IsSpace(s[j - 1])
    decreases hi - lo
  {
    if lo < hi && IsSpace(s[hi - 1]) then SkipSpacesBack(s, lo, hi - 1) else hi
  }

  /** `String.prototype.trim`: no white space is left at either end. */
  function Trim(s: string): (r: string)
    ensures IsTrimmed(r)
    ensures |r| <= |s|
  {
    var a := SkipSpaces(s, 0);
    s[a..SkipSpacesBack(s, a, |s|)]
  }

  /** What `trim` cuts: `s` is a blank prefix, then `Trim(s)`, then a blank
      suffix. */
  lemma TrimIsInfix(s: string)
    ensures exists a, b :: 0 <= a <= b <= |s| && Trim(s) == s[a..b] && IsBlank(s[..a]) && IsBlank(s[b..])
  {
    var a := SkipSpaces(s, 0);
    var b := SkipSpacesBack(s, a, |s|);
    assert forall i :: 0 <= i < a ==> s[..a][i] == s[i];
    assert forall i :: 0 <= i < |s| - b ==> s[b..][i] == s[b + i];
    assert Trim(s) == s[a..b] && IsBlank(s[..a]) && IsBlank(s[b..]);
  }

  /** `trim()` yields `''` exactly for blank strings, which is why the source's
      `line.trim() !== ''` is a blank-line test. */
  lemma TrimEmptyIffBlank(s: string)
    ensures Trim(s) == [] <==> IsBlank(s)
  {
    var a := SkipSpaces(s, 0);
    var b := SkipSpacesBack(s, a, |s|);
    assert Trim(s) == s[a..b];
    assert IsBlank(s) ==> a == |s|;
  }

  /** Trimming a string that is already trimmed gives it back. */
  lemma TrimOfTrimmed(s: string)
    requires IsTrimmed(s)
    ensures Trim(s) == s
  {
    if s != [] {
      assert SkipSpaces(s, 0) == 0;
      assert SkipSpacesBack(s, 0, |s|) == |s|;
      assert s[0..|s|] == s;
    }
  }

  /** `parts.join(sep)`. */
  function Join(parts: seq<string>, sep: string): string
    decreases |parts|
  {
    if |parts| == 0 then ""
    else if |parts| == 1 then parts[0]
    else parts[0] + sep + Join(parts[1..], sep)
  }

  /** Appending a piece appends the separator and the piece to the join. */
  lemma {:induction false} JoinSnoc(parts: seq<string>, p: string, sep: string)
    requires |parts| >= 1
    ensures Join(parts + [p], sep) == Join(parts, sep) + sep + p
    decreases |parts|
  {
    if |parts| > 1 {
      JoinSnoc(parts[1..], p, sep);
      assert (parts + [p])[1..] == parts[1..] + [p];
    } else {
      assert (parts + [p])[1..] == [p];
    }
  }

  /** `s.split(sep)` for a one-character separator: there is always at least
      one piece, no piece contains the separator, and gluing the pieces back
      with the separator rebuilds `s`. */
  function Split(s: string, sep: char): (r: seq<string>)
    ensures |r| >= 1
    ensures forall i :: 0 <= i < |r| ==> sep !in r[i]
    ensures Join(r, [sep]) == s
    decreases |s|
  {
    if |s| == 0 then [""]
    else
      var rest := Split(s[1..], sep);
      if s[0] == sep then
        assert Join([""] + rest, [sep]) == [sep] + Join(rest, [sep]) by {
          assert ([""] + rest)[1..] == rest;
        }
        assert s == [s[0]] + s[1..];
        [""] + rest
      else
        var r := [[s[0]] + rest[0]] + rest[1..];
        assert sep !in r[0];
        JoinConsHead(s[0], rest, [sep]);
        assert s == [s[0]] + s[1..];
        r
  }

  /** Prepending a character to the first piece prepends it to the join. */
  lemma JoinConsHead(c: char, parts: seq<string>, sep: string)
    requires |parts| >= 1
    ensures Join([[c] + parts[0]] + parts[1..], sep) == [c] + Join(parts, sep)
  {
    var q := [[c] + parts[0]] + parts[1..];
    assert q[1..] == parts[1..];
  }

  /** The other direction of the round trip: splitting a join of pieces that
      are free of the separator gives the pieces back. */
  lemma {:induction false} SplitJoin(parts: seq<string>, sep: char)
    requires |parts| >= 1
    requires forall i :: 0 <= i < |parts| ==> sep !in parts[i]
    ensures Split(Join(parts, [sep]), sep) == parts
    decreases |parts|
  {
    if |parts| == 1 {
      SplitWithout(parts[0], sep);
    } else {
      SplitJoin(parts[1..], sep);
      SplitAfterPiece(parts[0], Join(parts[1..], [sep]), sep);
      assert parts == [parts[0]] + parts[1..];
    }
  }

  /** A string without the separator splits into itself. */
  lemma {:induction false} SplitWithout(s: string, sep: char)
    requires sep !in s
    ensures Split(s, sep) == [s]
    decreases |s|
  {
    if |s| > 0 {
      SplitWithout(s[1..], sep);
      assert s == [s[0]] + s[1..];
    }
  }

  /** Splitting `a + [sep] + b`, where `a` holds no separator, yields `a`
      followed by the pieces of `b`. */
  lemma {:induction false} SplitAfterPiece(a: string, b: string, sep: char)
    requires sep !in a
    ensures Split(a + [sep] + b, sep) == [a] + Split(b, sep)
    decreases |a|
  {
    var s := a + [sep] + b;
    if |a| == 0 {
      assert s[1..] == b;
    } else {
      assert s[1..] == a[1..] + [sep] + b;
      SplitAfterPiece(a[1..], b, sep);
      assert a == [a[0]] + a[1..];
    }
  }

  /** What the first character of `s` becomes when every run of white space
      is replaced by `c`: a white-space character followed by another one is
      dropped, the last of a run becomes `c`, and any other character stays. */
  function Lead(s: string, c: char): string
    requires |s| > 0
  {
    if !IsSpace(s[0]) then [s[0]]
    else if |s| > 1 && IsSpace(s[1]) then []
    else [c]
  }

  /** `s.replace(/\s+/g, [c])`: every maximal run of white space becomes one
      `c`, placed where the run ends. */
  function CollapseSpaces(s: string, c: char): string
    decreases |s|
  {
    if |s| == 0 then "" else Lead(s, c) + CollapseSpaces(s[1..], c)
  }

  /** With a replacement that is not white space, no white space is left. */
  lemma {:induction false} CollapseNoSpace(s: string, c: char)
    requires !IsSpace(c)
    ensures HasNoSpace(CollapseSpaces(s, c))
    decreases |s|
  {
    if |s| > 0 {
      CollapseNoSpace(s[1..], c);
      NoSpaceConcat(Lead(s, c), CollapseSpaces(s[1..], c));
    }
  }

  /** A string without white space is left as it is. */
  lemma {:induction false} CollapsePlain(s: string, c: char)
    requires HasNoSpace(s)
    ensures CollapseSpaces(s, c) == s
    decreases |s|
  {
    if |s| > 0 {
      assert Lead(s, c) == [s[0]];
      assert HasNoSpace(s[1..]) by {
        forall i | 0 <= i < |s[1..]|
          ensures !IsSpace(s[1..][i])
        {
          assert s[1..][i] == s[i + 1];
        }
      }
      CollapsePlain(s[1..], c);
      assert s == [s[0]] + s[1..];
    }
  }

  /** Collapsing distributes over a concatenation whose second part does not
      start with white space: no run crosses the boundary. */
  lemma {:induction false} CollapseAppend(a: string, b: string, c: char)
    requires b == [] || !IsSpace(b[0])
    ensures CollapseSpaces(a + b, c) == CollapseSpaces(a, c) + CollapseSpaces(b, c)
    decreases |a|
  {
    if |a| == 0 {
      assert a + b == b;
    } else {
      var s := a + b;
      assert s[0] == a[0] && s[1..] == a[1..] + b;
      assert |s| > 1 ==> s[1] == if |a| > 1 then a[1] else b[0];
      assert Lead(s, c) == Lead(a, c);
      CollapseAppend(a[1..], b, c);
      assert CollapseSpaces(s, c) == Lead(a, c) + (CollapseSpaces(a[1..], c) + CollapseSpaces(b, c));
    }
  }

  /** A whole run of white space collapses to the single character `c`. */
  lemma {:induction false} CollapseRun(w: string, c: char)
    requires |w| > 0 && IsBlank(w)
    ensures CollapseSpaces(w, c) == [c]
    decreases |w|
  {
    if |w| > 1 {
      assert w[1..][0] == w[1];
      assert Lead(w, c) == [];
      CollapseRun(w[1..], c);
    } else {
      assert Lead(w, c) == [c];
      assert CollapseSpaces(w[1..], c) == [];
    }
  }

  /** Collapsing also distributes over a concatenation whose first part ends
      in a character that is not white space. */
  lemma {:induction false} CollapseAfterWord(a: string, b: string, c: char)
    requires a != [] && !IsSpace(a[|a| - 1])
    ensures CollapseSpaces(a + b, c) == CollapseSpaces(a, c) + CollapseSpaces(b, c)
    decreases |a|
  {
    var s := a + b;
    assert s[0] == a[0] && s[1..] == a[1..] + b;
    if |a| == 1 {
      assert Lead(s, c) == [a[0]] == Lead(a, c);
      assert a[1..] == [];
      assert CollapseSpaces(a, c) == [a[0]];
    } else {
      assert s[1] == a[1];
      assert Lead(s, c) == Lead(a, c);
      CollapseAfterWord(a[1..], b, c);
      assert CollapseSpaces(s, c) == Lead(a, c) + (CollapseSpaces(a[1..], c) + CollapseSpaces(b, c));
    }
  }

  lemma NoSpaceConcat(a: string, b: string)
    requires HasNoSpace(a) && HasNoSpace(b)
    ensures HasNoSpace(a + b)
  {
    forall i | 0 <= i < |a + b|
      ensures !IsSpace((a + b)[i])
    {
      if i >= |a| {
        assert (a + b)[i] == b[i - |a|];
      }
    }
  }

  lemma EndsWithAppend(a: string, suffix: string)
    ensures EndsWith(a + suffix, suffix)
  {
    assert (a + suffix)[|a|..] == suffix;
  }
}
