/** Whitespace squishing (package strutil).  Strings are sequences of
    Unicode scalar values. */
module Strutil {

  /** unicode.IsSpace: the characters strings.TrimSpace removes. */
  predicate IsSpace(c: char) {
    c == '\t' || c == '\n' || c == '\U{000B}' || c == '\U{000C}' || c == '\r' || c == ' ' ||
    c == '\U{0085}' || c == '\U{00A0}' || c == '\U{1680}' || ('\U{2000}' <= c <= '\U{200A}') ||
    c == '\U{2028}' || c == '\U{2029}' || c == '\U{202F}' || c == '\U{205F}' || c == '\U{3000}'
  }

  /** The regular-expression class `\s`: tab, newline, form feed, carriage
      return and space.  The vertical tab and the non-ASCII spaces are not in it. */
  predicate IsReSpace(c: char) {
    c == '\t' || c == '\n' || c == '\U{000C}' || c == '\r' || c == ' '
  }

  /** Leading characters removed by TrimSpace. */
  function TrimLeft(s: string): (r: string)
    ensures |r| <= |s| && r == s[|s| - |r|..]
    ensures forall i :: 0 <= i < |s| - |r| ==> IsSpace(s[i])
    ensures r == [] || !IsSpace(r[0])
  {
    if s != [] && IsSpace(s[0]) then TrimLeft(s[1..]) else s
  }

  /** Trailing characters removed by TrimSpace. */
  function TrimRight(s: string): (r: string)
    ensures |r| <= |s| && r == s[..|r|]
    ensures forall i :: |r| <= i < |s| ==> IsSpace(s[i])
    ensures r == [] || !IsSpace(r[|r| - 1])
  {
    if s != [] && IsSpace(s[|s| - 1]) then TrimRight(s[..|s| - 1]) else s
  }

  /** strings.TrimSpace: the result is a piece of `s` with no white space at
      either end, and it is empty only when `s` is white space throughout. */
  function TrimSpace(s: string): (r: string)
    ensures |r| <= |s|
    ensures r == [] || (!IsSpace(r[0]) && !IsSpace(r[|r| - 1]))
    ensures r == [] <==> forall i :: 0 <= i < |s| ==> IsSpace(s[i])
  {
    TrimRight(TrimLeft(s))
  }

  /** A maximal run of `\s` characters at the front, removed. */
  function DropRun(s: string): (r: string)
    ensures |r| <= |s| && r == s[|s| - |r|..]
    ensures r == [] || !IsReSpace(r[0])
  {
    if s != [] && IsReSpace(s[0]) then DropRun(s[1..]) else s
  }

  /** Every character DropRun removes is a `\s` character. */
  lemma {:induction false} DropRunRemovesRun(s: string)
    ensures forall i :: 0 <= i < |s| - |DropRun(s)| ==> IsReSpace(s[i])
    decreases |s|
  {
    if s != [] && IsReSpace(s[0]) {
      DropRunRemovesRun(s[1..]);
      assert forall i :: 1 <= i < |s| - |DropRun(s)| ==> s[i] == s[1..][i - 1];
    }
  }

  /** A last character that is not `\s` survives DropRun, as its last. */
  lemma DropRunKeepsLast(s: string)
    requires s != [] && !IsReSpace(s[|s| - 1])
    ensures DropRun(s) != [] && DropRun(s)[|DropRun(s)| - 1] == s[|s| - 1]
  {
    var r := DropRun(s);
    DropRunRemovesRun(s);
    assert !IsReSpace(s[|s| - 1]);
    assert r != [];
    assert r[|r| - 1] == s[|s| - |r|..][|r| - 1];
  }

  /** ReplaceAllString(s, " ") with the pattern `\s+`: every maximal run of
      `\s` characters becomes one space. */
  function Collapse(s: string): (r: string)
    ensures |r| <= |s|
    decreases |s|
  {
    if s == [] then []
    else if IsReSpace(s[0]) then " " + Collapse(DropRun(s[1..]))
    else [s[0]] + Collapse(s[1..])
  }

  /** Squish: trim, then collapse the inner runs; the result is no longer
      than `s`, and empty only when `s` is white space throughout. */
  function Squish(s: string): (r: string)
    ensures |r| <= |s|
    ensures r == [] <==> forall i :: 0 <= i < |s| ==> IsSpace(s[i])
  {
    CollapseFirst(TrimSpace(s));
    Collapse(TrimSpace(s))
  }

  /** Every `\s` character is a plain space and no two are adjacent. */
  predicate Collapsed(t: string) {
    forall i :: 0 <= i < |t| && IsReSpace(t[i]) ==> t[i] == ' ' && (i + 1 < |t| ==> !IsReSpace(t[i + 1]))
  }

  /** The characters that are not Unicode white space, in order. */
  function Visible(s: string): string {
    if s == [] then [] else (if IsSpace(s[0]) then [] else [s[0]]) + Visible(s[1..])
  }

  lemma {:induction false} VisibleAppend(a: string, b: string)
    ensures Visible(a + b) == Visible(a) + Visible(b)
  {
    if a != [] {
      assert (a + b)[0] == a[0] && (a + b)[1..] == a[1..] + b;
      VisibleAppend(a[1..], b);
    } else {
      assert a + b == b;
    }
  }

  lemma {:induction false} VisibleTrimLeft(s: string)
    ensures Visible(TrimLeft(s)) == Visible(s)
    decreases |s|
  {
    if s != [] && IsSpace(s[0]) {
      VisibleTrimLeft(s[1..]);
    }
  }

  lemma {:induction false} VisibleTrimRight(s: string)
    ensures Visible(TrimRight(s)) == Visible(s)
    decreases |s|
  {
    if s != [] && IsSpace(s[|s| - 1]) {
      var front := s[..|s| - 1];
      VisibleTrimRight(front);
      assert s == front + [s[|s| - 1]];
      VisibleAppend(front, [s[|s| - 1]]);
    }
  }

  /** Trimming removes white space only. */
  lemma VisibleTrimSpace(s: string)
    ensures Visible(TrimSpace(s)) == Visible(s)
  {
    VisibleTrimLeft(s);
    VisibleTrimRight(TrimLeft(s));
  }

  lemma {:induction false} VisibleDropRun(s: string)
    ensures Visible(DropRun(s)) == Visible(s)
    decreases |s|
  {
    if s != [] && IsReSpace(s[0]) {
      VisibleDropRun(s[1..]);
    }
  }

  /** Collapsing replaces white space by white space only. */
  lemma {:induction false} VisibleCollapse(s: string)
    ensures Visible(Collapse(s)) == Visible(s)
    decreases |s|
  {
    if s != [] {
      if IsReSpace(s[0]) {
        VisibleDropRun(s[1..]);
        VisibleCollapse(DropRun(s[1..]));
        VisibleAppend(" ", Collapse(DropRun(s[1..])));
      } else {
        VisibleCollapse(s[1..]);
        VisibleAppend([s[0]], Collapse(s[1..]));
      }
    }
  }

  /** Collapse leaves its first character alone unless it opens a run, and
      is empty only on the empty string. */
  lemma CollapseFirst(s: string)
    ensures Collapse(s) == [] <==> s == []
    ensures s != [] ==> Collapse(s)[0] == if IsReSpace(s[0]) then ' ' else s[0]
  {
  }

  /** Collapse leaves a last character that is not `\s` where it is. */
  lemma {:induction false} CollapseLast(s: string)
    requires s != [] && !IsReSpace(s[|s| - 1])
    ensures Collapse(s) != [] && Collapse(s)[|Collapse(s)| - 1] == s[|s| - 1]
    decreases |s|
  {
    if IsReSpace(s[0]) {
      var d := DropRun(s[1..]);
      DropRunKeepsLast(s[1..]);
      CollapseLast(d);
    } else if |s| > 1 {
      CollapseLast(s[1..]);
    }
  }

  /** The result of Collapse is collapsed. */
  lemma {:induction false} CollapseCollapsed(s: string)
    ensures Collapsed(Collapse(s))
    decreases |s|
  {
    if s != [] {
      if IsReSpace(s[0]) {
        var d := DropRun(s[1..]);
        CollapseCollapsed(d);
        CollapseFirst(d);
        assert Collapse(s) == " " + Collapse(d);
      } else {
        CollapseCollapsed(s[1..]);
        assert Collapse(s) == [s[0]] + Collapse(s[1..]);
      }
    }
  }

  /** A collapsed string is left as it is. */
  lemma {:induction false} CollapseFixesCollapsed(t: string)
    requires Collapsed(t)
    ensures Collapse(t) == t
    decreases |t|
  {
    if t != [] {
      assert Collapsed(t[1..]) by {
        forall i | 0 <= i < |t| - 1 && IsReSpace(t[1..][i])
          ensures t[1..][i] == ' ' && (i + 1 < |t| - 1 ==> !IsReSpace(t[1..][i + 1]))
        {
          assert t[1..][i] == t[i + 1];
        }
      }
      CollapseFixesCollapsed(t[1..]);
    }
  }

  /** Trimming a string with no white space at either end changes nothing. */
  lemma TrimSpaceFixes(t: string)
    requires t == [] || (!IsSpace(t[0]) && !IsSpace(t[|t| - 1]))
    ensures TrimSpace(t) == t
  {
  }

  /** DropRun of a string that opens with a `\s` character. */
  lemma DropRunConsRun(c: char, t: string)
    requires IsReSpace(c)
    ensures DropRun([c] + t) == DropRun(t)
  {
    assert ([c] + t)[0] == c && ([c] + t)[1..] == t;
  }

  /** A run of `\s` characters before a string that does not start with one
      is dropped whole. */
  lemma {:induction false} DropRunPrefix(run: string, b: string)
    requires forall i :: 0 <= i < |run| ==> IsReSpace(run[i])
    requires b == [] || !IsReSpace(b[0])
    ensures DropRun(run + b) == b
    decreases |run|
  {
    if run == [] {
      assert run + b == b;
    } else {
      var c, rest := run[0], run[1..];
      assert run == [c] + rest;
      ConcatAssoc([c], rest, b);
      DropRunConsRun(c, rest + b);
      DropRunPrefix(rest, b);
    }
  }

  /** A string opening outside `\s` is its own DropRun, whatever follows. */
  lemma DropRunNoRun(x: string, y: string)
    requires x != [] && !IsReSpace(x[0])
    ensures DropRun(x) == x && DropRun(x + y) == x + y
  {
    assert (x + y)[0] == x[0];
  }

  /** The step of DropRunAppend for a string that opens with a `\s` character. */
  lemma DropRunAppendStep(c: char, rest: string, y: string)
    requires IsReSpace(c)
    requires DropRun(rest + y) == DropRun(rest) + y
    ensures DropRun(([c] + rest) + y) == DropRun([c] + rest) + y
  {
    ConcatAssoc([c], rest, y);
    DropRunConsRun(c, rest);
    DropRunConsRun(c, rest + y);
  }

  /** DropRun stops at the first character that is not `\s`. */
  lemma {:induction false} DropRunAppend(x: string, y: string)
    requires DropRun(x) != []
    ensures DropRun(x + y) == DropRun(x) + y
    decreases |x|
  {
    var c, rest := x[0], x[1..];
    assert x == [c] + rest;
    if IsReSpace(c) {
      DropRunConsRun(c, rest);
      DropRunAppend(rest, y);
      DropRunAppendStep(c, rest, y);
    } else {
      DropRunNoRun(x, y);
    }
  }

  /** Collapse of a string that opens with a character outside `\s`. */
  lemma CollapseConsChar(c: char, t: string)
    requires !IsReSpace(c)
    ensures Collapse([c] + t) == [c] + Collapse(t)
  {
    assert ([c] + t)[0] == c && ([c] + t)[1..] == t;
  }

  /** Collapse of a string that opens with a `\s` character. */
  lemma CollapseConsRun(c: char, t: string)
    requires IsReSpace(c)
    ensures Collapse([c] + t) == " " + Collapse(DropRun(t))
  {
    assert ([c] + t)[0] == c && ([c] + t)[1..] == t;
  }

  lemma ConcatAssoc(x: string, y: string, z: string)
    ensures x + (y + z) == (x + y) + z
  {
  }

  /** The step of CollapseAppend for a string that opens with another character. */
  lemma CollapseAppendCharStep(c: char, rest: string, b: string)
    requires !IsReSpace(c)
    requires Collapse(rest + b) == Collapse(rest) + Collapse(b)
    ensures Collapse(([c] + rest) + b) == Collapse([c] + rest) + Collapse(b)
  {
    ConcatAssoc([c], rest, b);
    CollapseConsChar(c, rest);
    CollapseConsChar(c, rest + b);
    ConcatAssoc([c], Collapse(rest), Collapse(b));
  }

  /** The step of CollapseAppend for a string that opens with a run. */
  lemma CollapseAppendRunStep(c: char, rest: string, b: string)
    requires IsReSpace(c) && DropRun(rest) != []
    requires Collapse(DropRun(rest) + b) == Collapse(DropRun(rest)) + Collapse(b)
    ensures Collapse(([c] + rest) + b) == Collapse([c] + rest) + Collapse(b)
  {
    ConcatAssoc([c], rest, b);
    CollapseConsRun(c, rest);
    CollapseConsRun(c, rest + b);
    DropRunAppend(rest, b);
    ConcatAssoc(" ", Collapse(DropRun(rest)), Collapse(b));
  }

  /** Collapse works piecewise across a boundary that is not inside a run. */
  lemma {:induction false} CollapseAppend(a: string, b: string)
    requires a == [] || !IsReSpace(a[|a| - 1])
    ensures Collapse(a + b) == Collapse(a) + Collapse(b)
    decreases |a|
  {
    if a == [] {
      assert a + b == b;
    } else {
      var c, rest := a[0], a[1..];
      assert a == [c] + rest;
      if IsReSpace(c) {
        assert rest != [] && rest[|rest| - 1] == a[|a| - 1];
        DropRunKeepsLast(rest);
        CollapseAppend(DropRun(rest), b);
        CollapseAppendRunStep(c, rest, b);
      } else {
        CollapseAppend(rest, b);
        CollapseAppendCharStep(c, rest, b);
      }
    }
  }

  /** A run of `\s` characters before a string that does not start with
      one becomes one space. */
  lemma CollapseRunPrefix(run: string, b: string)
    requires run != [] && forall i :: 0 <= i < |run| ==> IsReSpace(run[i])
    requires b == [] || !IsReSpace(b[0])
    ensures Collapse(run + b) == " " + Collapse(b)
  {
    var c, rest := run[0], run[1..];
    assert run == [c] + rest;
    ConcatAssoc([c], rest, b);
    CollapseConsRun(c, rest + b);
    DropRunPrefix(rest, b);
  }

  /** A maximal run of `\s` characters, of any length and mixture, becomes
      exactly one space and the text on either side is collapsed on its own. */
  lemma CollapseRun(a: string, run: string, b: string)
    requires a == [] || !IsReSpace(a[|a| - 1])
    requires run != [] && forall i :: 0 <= i < |run| ==> IsReSpace(run[i])
    requires b == [] || !IsReSpace(b[0])
    ensures Collapse(a + run + b) == Collapse(a) + " " + Collapse(b)
  {
    ConcatAssoc(a, run, b);
    CollapseAppend(a, run + b);
    CollapseRunPrefix(run, b);
    ConcatAssoc(Collapse(a), " ", Collapse(b));
  }

  /** The result of Squish has no white space at either end. */
  lemma SquishEnds(s: string)
    ensures Squish(s) == [] || (!IsSpace(Squish(s)[0]) && !IsSpace(Squish(s)[|Squish(s)| - 1]))
  {
    var t := TrimSpace(s);
    CollapseFirst(t);
    if t != [] {
      CollapseLast(t);
    }
  }

  /** The result of Squish has its `\s` characters as single plain spaces. */
  lemma SquishCollapsed(s: string)
    ensures Collapsed(Squish(s))
  {
    CollapseCollapsed(TrimSpace(s));
  }

  /** Squish keeps every non-white-space character, in order, and adds none. */
  lemma SquishVisible(s: string)
    ensures Visible(Squish(s)) == Visible(s)
  {
    VisibleCollapse(TrimSpace(s));
    VisibleTrimSpace(s);
  }

  /** Squishing twice is squishing once. */
  lemma SquishIdempotent(s: string)
    ensures Squish(Squish(s)) == Squish(s)
  {
    var t := Squish(s);
    SquishEnds(s);
    TrimSpaceFixes(t);
    SquishCollapsed(s);
    CollapseFixesCollapsed(t);
  }

  /** A string of white space only squishes to the empty string. */
  lemma SquishAllSpace(s: string)
    requires forall i :: 0 <= i < |s| ==> IsSpace(s[i])
    ensures Squish(s) == ""
  {
  }

  /** A vertical tab is trimmed at the ends but kept inside the text, since
      `\s` does not match it. */
  lemma SquishVerticalTab(x: char, y: char)
    requires !IsSpace(x) && !IsSpace(y)
    ensures Squish(['\U{000B}', x, '\U{000B}', y, '\U{000B}']) == [x, '\U{000B}', y]
  {
    var v := '\U{000B}';
    var s := [v, x, v, y, v];
    var t := [x, v, y];
    assert s[1..] == t + [v];
    assert TrimLeft(s) == t + [v];
    assert (t + [v])[..|t|] == t;
    assert TrimRight(t + [v]) == t;
    assert Collapsed(t);
    CollapseFixesCollapsed(t);
  }
}
