/** The bytes that are hashed to fingerprint a configuration tree, and how to read them back. */
module ConfigDigest {

  datatype Option<+T> = None | Some(value: T)

  datatype Kind = Regular | Directory | Symlink

  /** Read, write and execute for owner, group and others. */
  type Perm = p: seq<bool> | |p| == 9 witness seq(9, _ => false)

  datatype Mode = Mode(kind: Kind, setuid: bool, setgid: bool, sticky: bool, perm: Perm)

  /** One entry of the tree; only a regular file has data, and its size is the data's length. */
  datatype Entry = Entry(path: string, mode: Mode, size: nat, link: string, data: string)

  predicate ValidEntry(e: Entry) {
    if e.mode.kind.Regular? then |e.data| == e.size else e.data == ""
  }

  // ----- numbers -----

  function Digit(n: nat): char
    requires n < 10
  {
    "0123456789"[n]
  }

  function Value(c: char): Option<nat> {
    if '0' <= c <= '9' then Some(c as nat - '0' as nat) else None
  }

  function Decimal(n: nat): (s: string)
    ensures s != "" && forall c | c in s :: '0' <= c <= '9'
  {
    if n < 10 then [Digit(n)] else Decimal(n / 10) + [Digit(n % 10)]
  }

  function Number(s: string): Option<nat> {
    if s == "" then Some(0)
    else
      var front, last := Number(s[..|s| - 1]), Value(s[|s| - 1]);
      if front.None? || last.None? then None else Some(10 * front.value + last.value)
  }

  lemma DigitValue(n: nat)
    requires n < 10
    ensures Value(Digit(n)) == Some(n)
  {
  }

  lemma {:induction false} NumberOfDecimal(n: nat)
    ensures Number(Decimal(n)) == Some(n)
  {
    DigitValue(n % 10);
    if n < 10 {
      assert Decimal(n)[..0] == "";
    } else {
      NumberOfDecimal(n / 10);
      assert Decimal(n)[..|Decimal(n)| - 1] == Decimal(n / 10);
    }
  }

  // ----- modes -----

  const LETTERS := "rwxrwxrwx"

  function PermText(perm: Perm): (s: string)
    ensures |s| == 9
  {
    seq(9, i requires 0 <= i < 9 => if perm[i] then LETTERS[i] else '-')
  }

  function TypeText(m: Mode): string {
    (match m.kind case Directory => "d" case Symlink => "L" case Regular => "") +
    (if m.setuid then "u" else "") + (if m.setgid then "g" else "") + if m.sticky then "t" else ""
  }

  /** The text of a file mode: type and special letters, or a dash for none, then the permissions. */
  function ModeText(m: Mode): string {
    (if TypeText(m) == "" then "-" else TypeText(m)) + PermText(m.perm)
  }

  function PermOf(p: string): (perm: Perm)
    requires |p| == 9
    ensures forall i | 0 <= i < 9 :: perm[i] <==> p[i] != '-'
  {
    seq(9, i requires 0 <= i < 9 => p[i] != '-')
  }

  function ModeOf(s: string): Mode
    requires |s| >= 9
  {
    var t, p := s[..|s| - 9], s[|s| - 9..];
    Mode(if 'd' in t then Directory else if 'L' in t then Symlink else Regular, 'u' in t, 'g' in t, 't' in t,
         PermOf(p))
  }

  lemma PermReadBack(perm: Perm)
    ensures PermOf(PermText(perm)) == perm
  {
    forall i | 0 <= i < 9 ensures LETTERS[i] != '-' {
      assert LETTERS[0] == 'r' && LETTERS[1] == 'w' && LETTERS[2] == 'x' && LETTERS[3] == 'r' && LETTERS[4] == 'w';
      assert LETTERS[5] == 'x' && LETTERS[6] == 'r' && LETTERS[7] == 'w' && LETTERS[8] == 'x';
    }
    assert forall i | 0 <= i < 9 :: PermText(perm)[i] == if perm[i] then LETTERS[i] else '-';
  }

  lemma TypeReadBack(m: Mode)
    ensures var t := if TypeText(m) == "" then "-" else TypeText(m);
            && ('d' in t <==> m.kind.Directory?) && ('L' in t <==> m.kind.Symlink?)
            && ('u' in t <==> m.setuid) && ('g' in t <==> m.setgid) && ('t' in t <==> m.sticky)
  {
  }

  lemma ModeReadBack(m: Mode)
    ensures |ModeText(m)| >= 9 && ModeOf(ModeText(m)) == m
  {
    var s, t := ModeText(m), if TypeText(m) == "" then "-" else TypeText(m);
    assert s[..|s| - 9] == t && s[|s| - 9..] == PermText(m.perm);
    TypeReadBack(m);
    PermReadBack(m.perm);
  }

  // ----- fields -----

  function Field(v: string): string {
    Decimal(|v|) + ":" + v
  }

  /** Reads one field: the digits up to the colon, then that many characters. */
  datatype Parsed = Parsed(value: string, rest: string)

  function Colon(s: string): Option<nat> {
    if s == "" then None
    else if s[0] == ':' then Some(0)
    else match Colon(s[1..]) case None => None case Some(i) => Some(i + 1)
  }

  lemma {:induction false} ColonAt(s: string)
    ensures Colon(s).Some? ==> Colon(s).value < |s|
  {
    if s != "" && s[0] != ':' {
      ColonAt(s[1..]);
    }
  }

  function ReadField(s: string): (p: Option<Parsed>)
    ensures p.Some? ==> |p.value.rest| < |s|
  {
    ColonAt(s);
    match Colon(s)
    case None => None
    case Some(i) =>
      match Number(s[..i])
      case None => None
      case Some(n) => if i + 1 + n <= |s| then Some(Parsed(s[i + 1..i + 1 + n], s[i + 1 + n..])) else None
  }

  lemma {:induction false} ColonBehind(digits: string, rest: string)
    requires forall c | c in digits :: c != ':'
    ensures Colon(digits + ":" + rest) == Some(|digits|)
  {
    var s := digits + ":" + rest;
    if digits == "" {
      assert s[0] == ':';
    } else {
      assert s[0] == digits[0] && digits[0] in digits && s[1..] == digits[1..] + ":" + rest;
      assert forall c | c in digits[1..] :: c in digits;
      ColonBehind(digits[1..], rest);
    }
  }

  lemma FieldReadBack(v: string, rest: string)
    ensures ReadField(Field(v) + rest) == Some(Parsed(v, rest))
  {
    var d := Decimal(|v|);
    var s := Field(v) + rest;
    assert s == d + ":" + (v + rest);
    ColonBehind(d, v + rest);
    NumberOfDecimal(|v|);
    var i, n := |d|, |v|;
    assert s[..i] == d;
    assert s[i + 1..i + 1 + n] == v && s[i + 1 + n..] == rest;
  }

  // ----- entries -----

  function Fields(values: seq<string>): string {
    if values == [] then "" else Fields(values[..|values| - 1]) + Field(values[|values| - 1])
  }

  function FieldsOf(e: Entry): seq<string> {
    [e.path, ModeText(e.mode), Decimal(e.size), e.link]
  }

  function EntryText(e: Entry): string {
    Fields(FieldsOf(e)) + e.data
  }

  function Encoded(entries: seq<Entry>): string {
    if entries == [] then "" else Encoded(entries[..|entries| - 1]) + EntryText(entries[|entries| - 1])
  }

  lemma FourFields(a: string, b: string, c: string, d: string)
    ensures Fields([a, b, c, d]) == Field(a) + Field(b) + Field(c) + Field(d)
  {
    assert [a, b, c, d][..3] == [a, b, c] && [a, b, c][..2] == [a, b] && [a, b][..1] == [a] && [a][..0] == [];
    assert Fields([a]) == Field(a) && Fields([a, b]) == Field(a) + Field(b);
  }

  datatype ParsedEntry = ParsedEntry(entry: Entry, rest: string)

  function ReadEntry(s: string): (p: Option<ParsedEntry>)
    ensures p.Some? ==> |p.value.rest| < |s|
  {
    var path := ReadField(s);
    if path.None? then None else
    var mode := ReadField(path.value.rest);
    if mode.None? || |mode.value.value| < 9 then None else
    var size := ReadField(mode.value.rest);
    if size.None? || Number(size.value.value).None? then None else
    var link := ReadField(size.value.rest);
    if link.None? then None else
    var m, n, rest := ModeOf(mode.value.value), Number(size.value.value).value, link.value.rest;
    if !m.kind.Regular? then Some(ParsedEntry(Entry(path.value.value, m, n, link.value.value, ""), rest))
    else if n > |rest| then None
    else Some(ParsedEntry(Entry(path.value.value, m, n, link.value.value, rest[..n]), rest[n..]))
  }

  function Decoded(s: string): Option<seq<Entry>>
    decreases |s|
  {
    if s == "" then Some([])
    else match ReadEntry(s)
      case None => None
      case Some(p) =>
        match Decoded(p.rest) case None => None case Some(es) => Some([p.entry] + es)
  }

  lemma EntryReadBack(e: Entry, rest: string)
    requires ValidEntry(e)
    ensures ReadEntry(EntryText(e) + rest) == Some(ParsedEntry(e, rest))
  {
    var d := e.data + rest;
    var l := Field(e.link) + d;
    var z := Field(Decimal(e.size)) + l;
    var m := Field(ModeText(e.mode)) + z;
    FourFields(e.path, ModeText(e.mode), Decimal(e.size), e.link);
    assert EntryText(e) + rest == Field(e.path) + m;
    ReadsFour(e, d, EntryText(e) + rest);
    assert |e.data| <= |d| && d[..|e.data|] == e.data && d[|e.data|..] == rest;
  }

  /** The four fields of an entry, read one after the other. */
  lemma ReadsFour(e: Entry, d: string, s: string)
    requires s == Field(e.path) + (Field(ModeText(e.mode)) + (Field(Decimal(e.size)) + (Field(e.link) + d)))
    ensures ReadEntry(s) ==
              if !e.mode.kind.Regular? then Some(ParsedEntry(e.(data := ""), d))
              else if e.size > |d| then None
              else Some(ParsedEntry(e.(data := d[..e.size]), d[e.size..]))
  {
    var l := Field(e.link) + d;
    var z := Field(Decimal(e.size)) + l;
    FieldReadBack(e.path, Field(ModeText(e.mode)) + z);
    FieldReadBack(ModeText(e.mode), z);
    FieldReadBack(Decimal(e.size), l);
    FieldReadBack(e.link, d);
    ModeReadBack(e.mode);
    NumberOfDecimal(e.size);
  }

  lemma Regroup(a: string, b: string, c: string)
    ensures a + b + c == a + (b + c)
  {
  }

  lemma {:induction false} EncodedFromFront(entries: seq<Entry>)
    requires entries != []
    ensures Encoded(entries) == EntryText(entries[0]) + Encoded(entries[1..])
  {
    var n := |entries| - 1;
    if n == 0 {
      assert entries[..0] == [] && entries[1..] == [];
    } else {
      var front, last := entries[..n], EntryText(entries[n]);
      EncodedFromFront(front);
      assert front[1..] == entries[1..][..n - 1] && front[0] == entries[0] && entries[1..][n - 1] == entries[n];
      Regroup(EntryText(entries[0]), Encoded(front[1..]), last);
    }
  }

  /** The hashed bytes determine the entries: there is a decoder that undoes the encoding. */
  lemma {:induction false} DecodesBack(entries: seq<Entry>)
    requires forall e | e in entries :: ValidEntry(e)
    ensures Decoded(Encoded(entries)) == Some(entries)
  {
    if entries != [] {
      var rest := Encoded(entries[1..]);
      EncodedFromFront(entries);
      EntryReadBack(entries[0], rest);
      DecodesBack(entries[1..]);
      DecodedNext(EntryText(entries[0]) + rest, entries[0], rest);
      assert entries == [entries[0]] + entries[1..];
    }
  }

  lemma DecodedNext(s: string, e: Entry, rest: string)
    requires ReadEntry(s) == Some(ParsedEntry(e, rest)) && Decoded(rest).Some?
    ensures Decoded(s) == Some([e] + Decoded(rest).value)
  {
  }

  /** Two trees with the same hashed bytes have the same entries. */
  lemma EncodingIsInjective(a: seq<Entry>, b: seq<Entry>)
    requires (forall e | e in a :: ValidEntry(e)) && (forall e | e in b :: ValidEntry(e)) && Encoded(a) == Encoded(b)
    ensures a == b
  {
    DecodesBack(a);
    DecodesBack(b);
  }

  /** Without the length prefixes it would not be: path and link could trade characters. */
  lemma PlainConcatenationIsAmbiguous()
    ensures exists a: Entry, b: Entry :: ValidEntry(a) && ValidEntry(b) && a != b &&
              a.path + ModeText(a.mode) + Decimal(a.size) + a.link + a.data == b.path + ModeText(b.mode) + Decimal(b.size) + b.link + b.data
  {
    var m := Mode(Symlink, false, false, false, seq(9, _ => false));
    var a, b := Entry("", m, 1, "2", ""), Entry("", m, 12, "", "");
    assert Decimal(12) == Decimal(1) + "2" && Decimal(1) == "1";
    assert a.path + ModeText(a.mode) + Decimal(a.size) + a.link + a.data == b.path + ModeText(b.mode) + Decimal(b.size) + b.link + b.data;
  }

  /** What is written to the hash, entry by entry and field by field. */
  method HashInput(entries: seq<Entry>) returns (written: string)
    ensures written == Encoded(entries)
  {
    written := "";
    for i := 0 to |entries|
      invariant written == Encoded(entries[..i])
    {
      assert entries[..i + 1][..i] == entries[..i];
      var values := FieldsOf(entries[i]);
      ghost var before := written;
      for k := 0 to |values|
        invariant written == before + Fields(values[..k])
      {
        assert values[..k + 1][..k] == values[..k];
        Regroup(before, Fields(values[..k]), Field(values[k]));
        written := written + (Decimal(|values[k]|) + ":" + values[k]);
      }
      assert values[..|values|] == values;
      Regroup(before, Fields(values), entries[i].data);
      written := written + entries[i].data;
    }
    assert entries[..|entries|] == entries;
  }
}
