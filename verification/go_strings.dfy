/**
 The subset of Go's `strings` package that the proxy relies on:
 `strings.Split(s, "\n")`, `strings.Join(parts, "\n")`, `strings.Trim(s, "\n")`
 and `strings.TrimSpace(s)`. Strings are sequences of Unicode characters.
 */
module GoStrings {

  const Newline: char := '\n'

  /** Number of newline characters in `s`. */
  function NewlineCount(s: string): nat
  {
    if |s| == 0 then 0
    else (if s[0] == Newline then 1 else 0) + NewlineCount(s[1..])
  }

  /** `strings.Split(s, "\n")`: the maximal newline-free pieces between separators. */
  function Split(s: string): (parts: seq<string>)
    ensures |parts| == NewlineCount(s) + 1
    ensures forall k :: 0 <= k < |parts| ==> Newline !in parts[k]
    decreases |s|
  {
    if |s| == 0 then [""]
    else
      var rest := Split(s[1..]);
      if s[0] == Newline then [""] + rest
      else [[s[0]] + rest[0]] + rest[1..]
  }

  /** `strings.Join(parts, "\n")`; joining no parts gives the empty string. */
  function Join(parts: seq<string>): string
  {
    if |parts| == 0 then ""
    else if |parts| == 1 then parts[0]
    else parts[0] + [Newline] + Join(parts[1..])
  }

  lemma {:induction false} JoinConsPrefix(c: char, head: string, tail: seq<string>)
    ensures Join([[c] + head] + tail) == [c] + Join([head] + tail)
  {
    var parts := [[c] + head] + tail;
    assert parts[1..] == tail;
    assert ([head] + tail)[1..] == tail;
  }

  /** Joining the pieces of a split gives back the original string. */
  lemma {:induction false} JoinSplit(s: string)
    ensures Join(Split(s)) == s
    decreases |s|
  {
    if |s| > 0 {
      var rest := Split(s[1..]);
      JoinSplit(s[1..]);
      if s[0] == Newline {
        assert ([""] + rest)[1..] == rest;
        assert Join([""] + rest) == "" + [Newline] + Join(rest);
        assert s == [s[0]] + s[1..];
      } else {
        assert rest == [rest[0]] + rest[1..];
        JoinConsPrefix(s[0], rest[0], rest[1..]);
        assert s == [s[0]] + s[1..];
      }
    }
  }

  /** Splitting a newline-free string gives that string alone. */
  lemma {:induction false} SplitNoNewline(a: string)
    requires Newline !in a
    ensures Split(a) == [a]
    decreases |a|
  {
    if |a| > 0 {
      assert Newline !in a[1..] by {
        forall k | 0 <= k < |a[1..]| ensures a[1..][k] != Newline {
          assert a[1..][k] == a[k + 1];
        }
      }
      SplitNoNewline(a[1..]);
      assert a[0] != Newline;
      assert [a[0]] + a[1..] == a;
    }
  }

  /** The first separator of `a + "\n" + b` ends the first piece when `a` is newline-free. */
  lemma {:induction false} SplitAtFirstNewline(a: string, b: string)
    requires Newline !in a
    ensures Split(a + [Newline] + b) == [a] + Split(b)
    decreases |a|
  {
    var s := a + [Newline] + b;
    if |a| == 0 {
      assert s[0] == Newline;
      assert s[1..] == b;
    } else {
      assert s[0] == a[0];
      assert s[1..] == a[1..] + [Newline] + b;
      assert Newline !in a[1..] by {
        forall k | 0 <= k < |a[1..]| ensures a[1..][k] != Newline {
          assert a[1..][k] == a[k + 1];
        }
      }
      SplitAtFirstNewline(a[1..], b);
      assert [a[0]] + a[1..] == a;
    }
  }

  /** Splitting a join of newline-free pieces gives back the pieces. */
  lemma {:induction false} SplitJoin(parts: seq<string>)
    requires |parts| >= 1
    requires forall k :: 0 <= k < |parts| ==> Newline !in parts[k]
    ensures Split(Join(parts)) == parts
    decreases |parts|
  {
    if |parts| == 1 {
      SplitNoNewline(parts[0]);
    } else {
      SplitJoin(parts[1..]);
      SplitAtFirstNewline(parts[0], Join(parts[1..]));
      assert parts == [parts[0]] + parts[1..];
    }
  }

  /** Splitting the empty body gives one empty piece, not an empty sequence. */
  lemma SplitEmpty()
    ensures Split("") == [""]
  {
  }

  /** The two character classes the proxy trims: the cutset "\n" and `unicode.IsSpace`. */
  datatype Cutset = Newlines | Spaces

  predicate Cuts(cut: Cutset, c: char)
  {
    match cut
    case Newlines => c == Newline
    case Spaces => IsSpace(c)
  }

  /** `strings.TrimLeft` with a one-class cutset: drops the longest prefix of `cut` characters. */
  function TrimLeft(s: string, cut: Cutset): (r: string)
    ensures |r| <= |s| && r == s[|s| - |r|..]
    ensures forall i :: 0 <= i < |s| - |r| ==> Cuts(cut, s[i])
    ensures |r| > 0 ==> !Cuts(cut, r[0])
    decreases |s|
  {
    if |s| > 0 && Cuts(cut, s[0]) then TrimLeft(s[1..], cut) else s
  }

  /** `strings.TrimRight` with a one-class cutset: drops the longest suffix of `cut` characters. */
  function TrimRight(s: string, cut: Cutset): (r: string)
    ensures |r| <= |s| && r == s[..|r|]
    ensures forall i :: |r| <= i < |s| ==> Cuts(cut, s[i])
    ensures |r| > 0 ==> !Cuts(cut, r[|r| - 1])
    decreases |s|
  {
    if |s| > 0 && Cuts(cut, s[|s| - 1]) then TrimRight(s[..|s| - 1], cut) else s
  }

  /** Drops leading and trailing `cut` characters. */
  function TrimBoth(s: string, cut: Cutset): string
  {
    TrimRight(TrimLeft(s, cut), cut)
  }

  /** `strings.Trim(s, "\n")`. */
  function TrimNewlines(s: string): (r: string)
    ensures |r| <= |s|
    ensures |r| > 0 ==> r[0] != Newline && r[|r| - 1] != Newline
  {
    TrimBothCleanEnds(s, Newlines);
    TrimBoth(s, Newlines)
  }

  /** `unicode.IsSpace`, which `strings.TrimSpace` uses. */
  predicate IsSpace(c: char)
  {
    || c == '\t' || c == '\n' || c == '\U{000B}' || c == '\U{000C}' || c == '\r' || c == ' '
    || c == '\U{0085}' || c == '\U{00A0}' || c == '\U{1680}'
    || ('\U{2000}' <= c <= '\U{200A}')
    || c == '\U{2028}' || c == '\U{2029}' || c == '\U{202F}' || c == '\U{205F}' || c == '\U{3000}'
  }

  /** A sign or a decimal digit is not white space. */
  lemma NumeralCharNotSpace(c: char)
    requires c == '-' || '0' <= c <= '9'
    ensures !IsSpace(c)
  {
  }

  /** `strings.TrimSpace(s)`. */
  function TrimSpace(s: string): (r: string)
    ensures |r| <= |s|
    ensures |r| > 0 ==> !IsSpace(r[0]) && !IsSpace(r[|r| - 1])
  {
    TrimBothCleanEnds(s, Spaces);
    TrimBoth(s, Spaces)
  }

  /** Where the part kept by a trim starts: the number of leading `cut` characters. */
  function TrimStart(s: string, cut: Cutset): (i: nat)
    ensures i <= |s|
    ensures forall k :: 0 <= k < i ==> Cuts(cut, s[k])
  {
    |s| - |TrimLeft(s, cut)|
  }

  /** The kept part is the stretch of `s` from the trim start. */
  lemma TrimBothSlice(s: string, cut: Cutset)
    ensures var i, r := TrimStart(s, cut), TrimBoth(s, cut);
      i + |r| <= |s| && r == s[i..i + |r|]
  {
    var l := TrimLeft(s, cut);
    var r := TrimRight(l, cut);
    var i := |s| - |l|;
    assert l == s[i..] && r == l[..|r|];
    assert forall k :: 0 <= k < |r| ==> r[k] == s[i + k];
  }

  /** Everything after the kept part is a `cut` character. */
  lemma TrimBothCutsTail(s: string, cut: Cutset)
    ensures var i, r := TrimStart(s, cut), TrimBoth(s, cut);
      forall k :: i + |r| <= k < |s| ==> Cuts(cut, s[k])
  {
    var l := TrimLeft(s, cut);
    var r := TrimRight(l, cut);
    var i := |s| - |l|;
    forall k | i + |r| <= k < |s| ensures Cuts(cut, s[k]) {
      assert s[k] == l[k - i];
    }
  }

  /** The kept part neither starts nor ends with a `cut` character. */
  lemma TrimBothCleanEnds(s: string, cut: Cutset)
    ensures var r := TrimBoth(s, cut);
      |r| > 0 ==> !Cuts(cut, r[0]) && !Cuts(cut, r[|r| - 1])
  {
    var l := TrimLeft(s, cut);
    var r := TrimRight(l, cut);
    if |r| > 0 {
      assert r == l[..|r|];
      assert r[0] == l[0];
      assert !Cuts(cut, r[|r| - 1]);
    }
  }

  /**
   Trimming keeps a contiguous middle part of `s`: everything cut off on
   either side is a `cut` character, and the kept part neither starts nor
   ends with one.
   */
  lemma TrimBothCharacterised(s: string, cut: Cutset) returns (i: nat)
    ensures var r := TrimBoth(s, cut);
      && i + |r| <= |s|
      && r == s[i..i + |r|]
      && (forall k :: 0 <= k < i ==> Cuts(cut, s[k]))
      && (forall k :: i + |r| <= k < |s| ==> Cuts(cut, s[k]))
      && (|r| > 0 ==> !Cuts(cut, r[0]) && !Cuts(cut, r[|r| - 1]))
  {
    i := TrimStart(s, cut);
    TrimBothSlice(s, cut);
    TrimBothCutsTail(s, cut);
    TrimBothCleanEnds(s, cut);
  }

  /** Trimming twice changes nothing more. */
  lemma TrimBothIdempotent(s: string, cut: Cutset)
    ensures TrimBoth(TrimBoth(s, cut), cut) == TrimBoth(s, cut)
  {
    TrimBothCleanEnds(s, cut);
    TrimBothKeepsClean(TrimBoth(s, cut), cut);
  }

  /** Leading `cut` characters before a clean start are exactly what `TrimLeft` drops. */
  lemma TrimLeftPadded(pre: string, t: string, cut: Cutset)
    requires forall k :: 0 <= k < |pre| ==> Cuts(cut, pre[k])
    requires |t| > 0 && !Cuts(cut, t[0])
    ensures TrimLeft(pre + t, cut) == t
  {
    var x := pre + t;
    var l := TrimLeft(x, cut);
    assert x[|pre|] == t[0];
    assert forall k :: 0 <= k < |pre| ==> x[k] == pre[k];
    assert l == x[|pre|..];
  }

  /** Trailing `cut` characters after a clean end are exactly what `TrimRight` drops. */
  lemma TrimRightPadded(t: string, post: string, cut: Cutset)
    requires forall k :: 0 <= k < |post| ==> Cuts(cut, post[k])
    requires |t| > 0 && !Cuts(cut, t[|t| - 1])
    ensures TrimRight(t + post, cut) == t
  {
    var x := t + post;
    var r := TrimRight(x, cut);
    assert x[|t| - 1] == t[|t| - 1];
    assert forall k :: |t| <= k < |x| ==> x[k] == post[k - |t|];
    assert r == x[..|t|];
  }

  /** Surrounding a clean string with `cut` characters on both sides is undone by trimming. */
  lemma TrimBothPadded(pre: string, s: string, post: string, cut: Cutset)
    requires forall k :: 0 <= k < |pre| ==> Cuts(cut, pre[k])
    requires forall k :: 0 <= k < |post| ==> Cuts(cut, post[k])
    requires |s| > 0 && !Cuts(cut, s[0]) && !Cuts(cut, s[|s| - 1])
    ensures TrimBoth(pre + s + post, cut) == s
  {
    assert pre + s + post == pre + (s + post);
    assert (s + post)[0] == s[0];
    TrimLeftPadded(pre, s + post, cut);
    TrimRightPadded(s, post, cut);
  }

  /** A string with no `cut` character at either end is left as it is. */
  lemma TrimBothKeepsClean(s: string, cut: Cutset)
    requires |s| > 0 ==> !Cuts(cut, s[0]) && !Cuts(cut, s[|s| - 1])
    ensures TrimBoth(s, cut) == s
  {
    assert TrimLeft(s, cut) == s;
    assert TrimRight(s, cut) == s;
  }
}
