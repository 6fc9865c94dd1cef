/** Byte strings: the order Go sorts them in, and substring search. */
module Strings {

  predicate Less(a: string, b: string) {
    b != "" && (a == "" || a[0] < b[0] || (a[0] == b[0] && Less(a[1..], b[1..])))
  }

  lemma {:induction false} LessTotal(a: string, b: string)
    ensures !(Less(a, b) && Less(b, a))
    ensures a != b ==> Less(a, b) || Less(b, a)
    ensures a == b ==> !Less(a, b)
  {
    if a != "" && b != "" && a[0] == b[0] {
      LessTotal(a[1..], b[1..]);
      assert a == [a[0]] + a[1..] && b == [b[0]] + b[1..];
    }
  }

  lemma {:induction false} LessTransitive(a: string, b: string, c: string)
    requires Less(a, b) && Less(b, c)
    ensures Less(a, c)
  {
    if a != "" && a[0] == b[0] == c[0] {
      LessTransitive(a[1..], b[1..], c[1..]);
    }
  }

  predicate HasPrefix(s: string, p: string) {
    |p| <= |s| && s[..|p|] == p
  }

  predicate At(s: string, needle: string, i: nat) {
    i + |needle| <= |s| && s[i..i + |needle|] == needle
  }

  predicate Contains(s: string, needle: string) {
    exists i: nat | i <= |s| :: At(s, needle, i)
  }

  lemma SliceOfSlice(s: string, lo: nat, hi: nat, i: nat, j: nat)
    requires lo <= hi <= |s| && i <= j <= hi - lo
    ensures s[lo..hi][i..j] == s[lo + i..lo + j]
  {
    assert forall k | 0 <= k < j - i :: s[lo..hi][i..j][k] == s[lo + i..lo + j][k];
  }

  lemma PartContains(s: string, lo: nat, hi: nat, needle: string)
    requires lo <= hi <= |s| && Contains(s[lo..hi], needle)
    ensures Contains(s, needle)
  {
    var i: nat :| i <= |s[lo..hi]| && At(s[lo..hi], needle, i);
    SliceOfSlice(s, lo, hi, i, i + |needle|);
    assert At(s, needle, lo + i);
  }

  lemma CharsAt(s: string, needle: string, i: nat)
    requires At(s, needle, i)
    ensures forall j | 0 <= j < |needle| :: s[i + j] == needle[j]
  {
    forall j | 0 <= j < |needle| ensures s[i + j] == needle[j] { assert s[i..i + |needle|][j] == s[i + j]; }
  }

  predicate OneLine(s: string) {
    forall j | 0 <= j < |s| :: s[j] != '\n'
  }

  // ----- lines -----

  function Split(s: string): (lines: seq<string>)
    ensures lines != [] && forall l | l in lines :: OneLine(l)
  {
    if s == "" then [""]
    else
      var rest := Split(s[1..]);
      if s[0] == '\n' then [""] + rest
      else
        assert rest[0] in rest;
        [[s[0]] + rest[0]] + rest[1..]
  }

  function Join(lines: seq<string>): string {
    if lines == [] then ""
    else if |lines| == 1 then lines[0]
    else lines[0] + "\n" + Join(lines[1..])
  }

  lemma {:induction false} JoinSplit(s: string)
    ensures Join(Split(s)) == s
  {
    if s != "" {
      JoinSplit(s[1..]);
      var rest := Split(s[1..]);
      if s[0] == '\n' {
        assert ([""] + rest)[1..] == rest;
      } else {
        assert ([[s[0]] + rest[0]] + rest[1..])[1..] == rest[1..];
      }
    }
  }

  lemma {:induction false} SplitLine(l: string, rest: string)
    requires OneLine(l)
    ensures Split(l) == [l]
    ensures Split(l + "\n" + rest) == [l] + Split(rest)
  {
    if l == "" {
      assert l + "\n" + rest == ['\n'] + rest;
    } else {
      SplitLine(l[1..], rest);
      assert (l + "\n" + rest)[1..] == l[1..] + "\n" + rest;
      assert [l[0]] + l[1..] == l;
    }
  }

  lemma {:induction false} SplitJoin(lines: seq<string>)
    requires lines != [] && forall l | l in lines :: OneLine(l)
    ensures Split(Join(lines)) == lines
  {
    if |lines| == 1 {
      SplitLine(lines[0], "");
    } else {
      SplitJoin(lines[1..]);
      SplitLine(lines[0], Join(lines[1..]));
      assert lines == [lines[0]] + lines[1..];
    }
  }

  /** A one-line needle at the very start of joined lines starts the first line. */
  lemma StartOfJoin(lines: seq<string>, p: string)
    requires lines != [] && OneLine(p) && HasPrefix(Join(lines), p)
    ensures HasPrefix(lines[0], p)
  {
    var s := Join(lines);
    if |lines| > 1 {
      assert s[|lines[0]|] == '\n';
      assert forall j | 0 <= j < |p| :: p[j] == s[..|p|][j] == s[j];
      if |p| <= |lines[0]| {
        assert s[..|p|] == lines[0][..|p|];
      }
    }
  }

  /** Behind a newline of joined lines a line starts. */
  lemma {:induction false} LineAfterNewline(lines: seq<string>, i: nat) returns (k: nat)
    requires (forall l | l in lines :: OneLine(l)) && i < |Join(lines)| && Join(lines)[i] == '\n'
    ensures 0 < k < |lines| && Join(lines)[i + 1..] == Join(lines[k..])
  {
    var s := Join(lines);
    assert OneLine(lines[0]);
    assert forall j | 0 <= j < |lines[0]| :: s[j] == lines[0][j];
    if i == |lines[0]| {
      k := 1;
      assert s[i + 1..] == Join(lines[1..]);
    } else {
      var j := i - |lines[0]| - 1;
      assert s[i] == Join(lines[1..])[j];
      var m := LineAfterNewline(lines[1..], j);
      k := m + 1;
      assert lines[1..][m..] == lines[k..];
      assert s[i + 1..] == Join(lines[1..])[j + 1..];
    }
  }

  /** A one-line needle in joined lines lies in one of them. */
  lemma {:induction false} NeedleInLine(lines: seq<string>, needle: string, i: nat) returns (k: nat)
    requires lines != [] && needle != "" && OneLine(needle) && At(Join(lines), needle, i)
    ensures k < |lines| && Contains(lines[k], needle)
  {
    var s, n := Join(lines), |lines[0]|;
    CharsAt(s, needle, i);
    assert forall k | i <= k < i + |needle| :: s[k] != '\n' by {
      forall k | i <= k < i + |needle| ensures s[k] != '\n' { assert s[i + (k - i)] == needle[k - i]; }
    }
    if |lines| == 1 {
      k := 0;
      assert At(lines[0], needle, i);
    } else if i + |needle| <= n {
      k := 0;
      assert lines[0][i..i + |needle|] == s[i..i + |needle|];
      assert At(lines[0], needle, i);
    } else {
      assert s[n] == '\n';
      var tail := Join(lines[1..]);
      assert tail[i - n - 1..i - n - 1 + |needle|] == s[i..i + |needle|];
      var m := NeedleInLine(lines[1..], needle, i - n - 1);
      k := m + 1;
    }
  }

  /** A line's content is part of the joined text. */
  lemma {:induction false} LineInJoin(lines: seq<string>, k: nat, needle: string)
    requires k < |lines| && Contains(lines[k], needle)
    ensures Contains(Join(lines), needle)
  {
    var s := Join(lines);
    if |lines| > 1 {
      if k == 0 {
        assert s[0..|lines[0]|] == lines[0];
        PartContains(s, 0, |lines[0]|, needle);
      } else {
        LineInJoin(lines[1..], k - 1, needle);
        assert s[|lines[0]| + 1..|s|] == Join(lines[1..]);
        PartContains(s, |lines[0]| + 1, |s|, needle);
      }
    }
  }
}
