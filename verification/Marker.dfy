/** The provenance marker on the first line of every managed vhost. */
module Marker {
  import opened Strings

  const MARKER := "# nurproxy-managed:v1"
  const MARKER_PREFIX := "# nurproxy-managed:"
  const MAX_PROBE := 256

  function Kept(lines: seq<string>): (kept: seq<string>)
    ensures forall l | l in kept :: l in lines && !HasPrefix(l, MARKER_PREFIX)
    ensures |kept| <= |lines|
  {
    if lines == [] then []
    else if HasPrefix(lines[|lines| - 1], MARKER_PREFIX) then Kept(lines[..|lines| - 1])
    else Kept(lines[..|lines| - 1]) + [lines[|lines| - 1]]
  }

  function Stamped(content: string): string {
    MARKER + "\n" + Join(Kept(Split(content)))
  }

  method StampManagedArtifact(content: string) returns (stamped: string)
    ensures stamped == Stamped(content)
  {
    var lines := Split(content);
    var kept := [];
    for i := 0 to |lines|
      invariant kept == Kept(lines[..i])
    {
      if !HasPrefix(lines[i], MARKER_PREFIX) {
        kept := kept + [lines[i]];
      }
      assert lines[..i + 1][..i] == lines[..i];
    }
    assert lines[..|lines|] == lines;
    stamped := MARKER + "\n" + Join(kept);
  }

  predicate HasManagedArtifactMarker(content: string) {
    var probe := if |content| > MAX_PROBE then content[..MAX_PROBE] else content;
    var prefix := MARKER + "\n";
    && HasPrefix(probe, prefix)
    && !HasPrefix(probe[|prefix|..], MARKER_PREFIX)
    && !Contains(probe[|prefix|..], "\n" + MARKER_PREFIX)
  }

  lemma MarkerShape()
    ensures HasPrefix(MARKER, MARKER_PREFIX) && OneLine(MARKER) && OneLine(MARKER_PREFIX) && |MARKER| == 21
  {
    assert MARKER[..|MARKER_PREFIX|] == MARKER_PREFIX;
  }

  /** No line of the kept text can be taken for a marker, however much of it is read. */
  lemma NoMarkerInside(kept: seq<string>, n: nat)
    requires (forall l | l in kept :: OneLine(l) && !HasPrefix(l, MARKER_PREFIX)) && n <= |Join(kept)|
    ensures !HasPrefix(Join(kept)[..n], MARKER_PREFIX)
    ensures !Contains(Join(kept)[..n], "\n" + MARKER_PREFIX)
  {
    MarkerShape();
    var s := Join(kept);
    if HasPrefix(s[..n], MARKER_PREFIX) {
      assert s[..|MARKER_PREFIX|] == s[..n][..|MARKER_PREFIX|];
      if kept != [] {
        StartOfJoin(kept, MARKER_PREFIX);
      }
      assert false;
    }
    var needle := "\n" + MARKER_PREFIX;
    if Contains(s[..n], needle) {
      var i: nat :| i <= n && At(s[..n], needle, i);
      assert s[i..i + |needle|] == needle;
      assert s[i] == needle[0];
      var k := LineAfterNewline(kept, i);
      assert s[i + 1..][..|MARKER_PREFIX|] == needle[1..];
      StartOfJoin(kept[k..], MARKER_PREFIX);
      assert false;
    }
  }

  /** What was stamped carries the marker, whatever it was before. */
  lemma StampedIsMarked(content: string)
    ensures HasManagedArtifactMarker(Stamped(content))
  {
    MarkerShape();
    var kept := Kept(Split(content));
    var s := Stamped(content);
    var prefix := MARKER + "\n";
    var probe := if |s| > MAX_PROBE then s[..MAX_PROBE] else s;
    assert probe[..|prefix|] == prefix;
    assert probe[|prefix|..] == Join(kept)[..|probe| - |prefix|];
    NoMarkerInside(kept, |probe| - |prefix|);
  }

  lemma {:induction false} KeptIsStable(lines: seq<string>)
    ensures (forall l | l in lines :: !HasPrefix(l, MARKER_PREFIX)) ==> Kept(lines) == lines
  {
    if lines != [] {
      KeptIsStable(lines[..|lines| - 1]);
      assert lines == lines[..|lines| - 1] + [lines[|lines| - 1]];
    }
  }

  lemma {:induction false} KeptAfter(head: string, lines: seq<string>)
    requires HasPrefix(head, MARKER_PREFIX)
    ensures Kept([head] + lines) == Kept(lines)
  {
    var all := [head] + lines;
    if lines == [] {
      assert all[..0] == [];
    } else {
      assert all[..|all| - 1] == [head] + lines[..|lines| - 1];
      KeptAfter(head, lines[..|lines| - 1]);
    }
  }

  /** Stamping again changes nothing. */
  lemma StampedIsStable(content: string)
    ensures Stamped(Stamped(content)) == Stamped(content)
  {
    MarkerShape();
    var kept := Kept(Split(content));
    SplitLine(MARKER, Join(kept));
    KeptAfter(MARKER, Split(Join(kept)));
    if kept == [] {
      assert Split(Join(kept)) == [""];
      assert Kept([""]) == [""];
    } else {
      SplitJoin(kept);
      KeptIsStable(kept);
    }
  }

  lemma NoSlash(needle: string)
    requires needle != "" && needle[0] == '/'
    ensures !Contains(MARKER, needle) && !Contains("", needle)
  {
    assert forall j | 0 <= j < |MARKER| :: MARKER[j] != '/';
    forall j: nat | At(MARKER, needle, j) ensures false { CharsAt(MARKER, needle, j); }
  }

  /** Stamping adds no reference: a one-line path found in the stamped text was in the text before. */
  lemma StampedAddsNoPath(content: string, needle: string)
    requires needle != "" && needle[0] == '/' && OneLine(needle) && Contains(Stamped(content), needle)
    ensures Contains(content, needle)
  {
    MarkerShape();
    var kept := Kept(Split(content));
    var lines := [MARKER] + if kept == [] then [""] else kept;
    assert Join(lines) == Stamped(content);
    var i: nat :| i <= |Stamped(content)| && At(Stamped(content), needle, i);
    var k := NeedleInLine(lines, needle, i);
    NoSlash(needle);
    assert lines[k] in kept;
    var m :| 0 <= m < |Split(content)| && Split(content)[m] == lines[k];
    LineInJoin(Split(content), m, needle);
    JoinSplit(content);
  }

  const APART := ["/a", MARKER_PREFIX, "b.crt"]

  lemma SplitApart()
    ensures Split(Join(APART)) == APART
  {
    MarkerShape();
    SplitJoin(APART);
  }

  lemma KeptApart()
    ensures Kept(APART) == ["/a", "b.crt"]
  {
    assert MARKER_PREFIX[..|MARKER_PREFIX|] == MARKER_PREFIX;
    assert APART[..2] == ["/a", MARKER_PREFIX] && APART[..2][..1] == ["/a"];
    KeptIsStable(["/a"]);
    assert Kept(APART[..2]) == ["/a"];
  }

  lemma StampedApart()
    ensures Stamped(Join(APART)) == MARKER + "\n" + "/a\nb.crt"
  {
    SplitApart();
    KeptApart();
    assert ["/a", "b.crt"][1..] == ["b.crt"];
    assert Join(["/a", "b.crt"]) == "/a" + "\n" + "b.crt" == "/a\nb.crt";
  }

  lemma NoneApart(needle: string)
    requires |needle| >= 4 && needle[..4] == "/a\nb"
    ensures !Contains(Join(APART), needle)
  {
    var s := Join(APART);
    assert APART[1..] == [MARKER_PREFIX, "b.crt"] && APART[1..][1..] == ["b.crt"];
    assert Join(["b.crt"]) == "b.crt" && Join([MARKER_PREFIX, "b.crt"]) == MARKER_PREFIX + "\n" + Join([MARKER_PREFIX, "b.crt"][1..]);
    var rest := Join(APART[1..]);
    assert rest == MARKER_PREFIX + "\n" + "b.crt";
    assert forall j | 0 <= j < |rest| :: rest[j] != '/';
    assert s == "/a\n" + rest && s[3] == '#';
    assert needle[0] == '/' && needle[3] == 'b' by { assert needle[..4][0] == '/' && needle[..4][3] == 'b'; }
    forall i: nat | At(s, needle, i) ensures false {
      CharsAt(s, needle, i);
    }
  }

  /** With a newline in the path it can: removing a marker line may join what was apart. */
  lemma StampedMayAddPathAcrossLines()
    ensures Contains(Stamped(Join(APART)), "/a\nb.crt") && !Contains(Join(APART), "/a\nb.crt")
  {
    StampedApart();
    var s := Stamped(Join(APART));
    assert s[|MARKER| + 1..|MARKER| + 1 + 8] == "/a\nb.crt";
    assert At(s, "/a\nb.crt", |MARKER| + 1);
    assert "/a\nb.crt"[..4] == "/a\nb";
    NoneApart("/a\nb.crt");
  }
}
