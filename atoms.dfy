/**
  One atom species of a CPMD &ATOMS block (class Atom in
  pygmx/scripts/cpmd.py): its pseudopotential, labels, LMAX letter and
  coordinates; the text Atom.__str__ writes for it and what Atom.fromText
  reads back from the lines after the species header.
 */
module Atoms {
  import opened Outcomes
  import opened PyStr

  /** An atom's fields as a value. Coordinates are kept as the text str.split() gives. */
  datatype AtomRecord = AtomRecord(coords: seq<seq<string>>, lmax: string, pp: string, labels: string)

  /** str.startswith(p). */
  predicate StartsWith(s: string, p: string) {
    |p| <= |s| && s[..|p|] == p
  }

  // ------------------------------------------------------------ normalising

  /** The pseudopotential as Atom.__str__ leaves it: starting with '_'. */
  function NormalPp(pp: string): (r: string)
    ensures StartsWith(r, "_")
    ensures StartsWith(pp, "_") ==> r == pp
    ensures r == pp || r == "_" + pp
  {
    if StartsWith(pp, "_") then pp else "_" + pp
  }

  /** The labels as Atom.__str__ leaves them: empty, or starting with a space. */
  function NormalLabels(labels: string): (r: string)
    ensures r == "" || StartsWith(r, " ")
    ensures labels == "" || StartsWith(labels, " ") ==> r == labels
    ensures r == labels || r == " " + labels
  {
    if !StartsWith(labels, " ") && labels != "" then " " + labels else labels
  }

  /** The fields after Atom.__str__ has normalised pp and labels. */
  function Normalized(a: AtomRecord): AtomRecord {
    a.(pp := NormalPp(a.pp), labels := NormalLabels(a.labels))
  }

  /** Normalising twice is normalising once, so writing an atom twice writes the same text. */
  lemma NormalizedIdempotent(a: AtomRecord)
    ensures Normalized(Normalized(a)) == Normalized(a)
    ensures RenderAtom(Normalized(a)) == RenderAtom(a)
  {
    var n := Normalized(a);
    assert NormalPp(n.pp) == n.pp;
    assert NormalLabels(n.labels) == n.labels;
    assert Header(n) == Header(a);
  }

  // ------------------------------------------------------------ writing

  /** Every coordinate has the three entries the writer indexes. */
  predicate Complete(coords: seq<seq<string>>) {
    forall k | 0 <= k < |coords| :: |coords[k]| >= 3
  }

  /** The line written for one coordinate: its first three entries, indented and spaced. */
  function CoordLine(d: seq<string>): string
    requires |d| >= 3
  {
    "  " + (d[0] + ("   " + (d[1] + ("   " + d[2]))))
  }

  function CoordLines(coords: seq<seq<string>>): (r: seq<string>)
    requires Complete(coords)
    ensures |r| == |coords|
    ensures forall k | 0 <= k < |coords| :: r[k] == CoordLine(coords[k])
  {
    if coords == [] then [] else [CoordLine(coords[0])] + CoordLines(coords[1..])
  }

  /** The species header line: pseudopotential then labels. */
  function Header(a: AtomRecord): string {
    NormalPp(a.pp) + NormalLabels(a.labels)
  }

  /** The LMAX letter, upper-cased. */
  function LmaxLine(a: AtomRecord): string {
    "   LMAX=" + Upper(a.lmax)
  }

  /** The number of coordinates. */
  function CountLine(a: AtomRecord): string {
    "    " + Decimal(|a.coords|)
  }

  /** The lines after the header: LMAX, the coordinate count, the coordinates. */
  function BodyLines(a: AtomRecord): seq<string>
    requires Complete(a.coords)
  {
    [LmaxLine(a), CountLine(a)] + CoordLines(a.coords)
  }

  /** All lines Atom.__str__ writes, the last one blank. */
  function AtomLines(a: AtomRecord): seq<string>
    requires Complete(a.coords)
  {
    [Header(a)] + BodyLines(a) + [""]
  }

  /** Atom.__str__ as a value: every line ended by "\n"; an IndexError on a coordinate with fewer than three entries. */
  function RenderAtom(a: AtomRecord): Result<string> {
    if Complete(a.coords) then Ok(Terminated(AtomLines(a))) else Err(ShortCoordinate)
  }

  /** The text has one line per coordinate plus four, and its count line reads back as the number of coordinates. */
  lemma AtomShape(a: AtomRecord)
    requires Complete(a.coords)
    ensures |AtomLines(a)| == |a.coords| + 4
    ensures ParseInt(AtomLines(a)[2]) == Some(|a.coords|)
    ensures AtomLines(a)[1] == "   LMAX=" + Upper(a.lmax) && AtomLines(a)[|a.coords| + 3] == ""
  {
    assert AtomLines(a)[1] == LmaxLine(a) && AtomLines(a)[2] == CountLine(a);
    assert AllSpace("    ");
    ParseDecimal("    ", |a.coords|);
  }

  lemma {:induction false} CoordLinesAppend(coords: seq<seq<string>>, k: nat)
    requires k < |coords| && Complete(coords)
    ensures Complete(coords[..k]) && Complete(coords[..k + 1])
    ensures CoordLines(coords[..k + 1]) == CoordLines(coords[..k]) + [CoordLine(coords[k])]
  {
    var a, b := CoordLines(coords[..k + 1]), CoordLines(coords[..k]) + [CoordLine(coords[k])];
    assert |a| == |b|;
    forall j | 0 <= j < |a| ensures a[j] == b[j] {
      assert coords[..k + 1][j] == coords[j];
    }
  }

  /** A text ending in a blank line is the text of the other lines followed by "\n". */
  lemma TerminatedBlank(ls: seq<string>)
    ensures Terminated(ls + [""]) == Terminated(ls) + "\n"
  {
    TerminatedAppend(ls, [""]);
    assert Terminated([""]) == "" + "\n" + Terminated([]);
  }

  /** An atom as Python holds it: Atom.__str__ rewrites pp and labels in place. */
  class Atom {
    var coords: seq<seq<string>>
    var pp: string
    var labels: string
    var lmax: string

    function Model(): AtomRecord
      reads this
    {
      AtomRecord(coords, lmax, pp, labels)
    }

    /** Atom(coords, lmax, pp, labels); the source's defaults are [], 's', 'MT_BLYP', ''. */
    constructor (coords: seq<seq<string>>, lmax: string, pp: string, labels: string)
      ensures Model() == AtomRecord(coords, lmax, pp, labels)
    {
      this.coords := coords;
      this.pp := pp;
      this.labels := labels;
      this.lmax := lmax;
    }

    /** Atom.__str__: normalise pp and labels in place, then write the header, LMAX, count and coordinate lines. */
    method ToText() returns (r: Result<string>)
      modifies this
      ensures Model() == Normalized(old(Model()))
      ensures r == RenderAtom(old(Model()))
    {
      if !StartsWith(pp, "_") {
        pp := "_" + pp;
      }
      if !StartsWith(labels, " ") && labels != "" {
        labels := " " + labels;
      }
      ghost var a := old(Model());
      assert Model() == Normalized(a);
      var cs := coords;
      ghost var head := [Header(a), LmaxLine(a), CountLine(a)];
      var val := pp + labels + "\n";
      val := val + ("   LMAX=" + Upper(lmax) + "\n");
      val := val + ("    " + Decimal(|cs|) + "\n");
      HeadText(head, val);
      assert cs[..0] == [];
      assert head + CoordLines(cs[..0]) == head;
      assert cs == a.coords;
      for k := 0 to |cs|
        invariant Model() == Normalized(a)
        invariant Complete(cs[..k])
        invariant val == Terminated(head + CoordLines(cs[..k]))
      {
        var d := cs[k];
        if |d| < 3 {
          assert !Complete(a.coords) by { assert |a.coords[k]| < 3; }
          return Err(ShortCoordinate);
        }
        StepCoord(head, cs, k, val);
        val := val + (CoordLine(d) + "\n");
      }
      assert cs[..|cs|] == cs;
      FinishAtom(a, val);
      val := val + "\n";
      r := Ok(val);
    }
  }

  /** The blank line closes the text. */
  lemma FinishAtom(a: AtomRecord, val: string)
    requires Complete(a.coords)
    requires val == Terminated([Header(a), LmaxLine(a), CountLine(a)] + CoordLines(a.coords))
    ensures RenderAtom(a) == Ok(val + "\n")
  {
    var head := [Header(a), LmaxLine(a), CountLine(a)];
    TerminatedBlank(head + CoordLines(a.coords));
    assert AtomLines(a) == [Header(a)] + BodyLines(a) + [""];
    assert [Header(a)] + BodyLines(a) == head + CoordLines(a.coords);
  }

  /** The first three lines, each ended by "\n". */
  lemma HeadText(head: seq<string>, val: string)
    requires |head| == 3 && val == head[0] + "\n" + (head[1] + "\n") + (head[2] + "\n")
    ensures val == Terminated(head)
  {
    assert head[1..][1..][1..] == [];
    assert Terminated(head[1..][1..]) == head[2] + "\n" + "";
  }

  lemma CompleteStep(coords: seq<seq<string>>, k: nat)
    requires k < |coords| && Complete(coords[..k]) && |coords[k]| >= 3
    ensures Complete(coords[..k + 1])
  {
    var c := coords[..k + 1];
    forall j | 0 <= j < |c| ensures |c[j]| >= 3 {
      if j < k { assert c[j] == coords[..k][j]; }
    }
  }

  /** Writing one more coordinate line appends it to the text. */
  lemma StepCoord(head: seq<string>, coords: seq<seq<string>>, k: nat, val: string)
    requires k < |coords| && Complete(coords[..k]) && |coords[k]| >= 3
    requires val == Terminated(head + CoordLines(coords[..k]))
    ensures Complete(coords[..k + 1])
    ensures val + (CoordLine(coords[k]) + "\n") == Terminated(head + CoordLines(coords[..k + 1]))
  {
    var c := coords[..k + 1];
    var pre, line := CoordLines(coords[..k]), CoordLine(coords[k]);
    CompleteStep(coords, k);
    assert c[..k] == coords[..k];
    assert c[k] == coords[k];
    CoordLinesAppend(c, k);
    assert CoordLines(c) == pre + [line];
    Regroup(head, pre, [line]);
    TerminatedAppend(head + pre, [line]);
    TerminatedTwo(line, line);
  }

  // ------------------------------------------------------------ reading

  /** pat occurs in s at position j. */
  predicate Occurs(s: string, pat: string, j: nat) {
    j + |pat| <= |s| && s[j..j + |pat|] == pat
  }

  /** The position of the first occurrence of pat in s at or after i. */
  function IndexFrom(s: string, pat: string, i: nat): (r: Option<nat>)
    requires pat != [] && i <= |s|
    ensures r.Some? ==> i <= r.value && Occurs(s, pat, r.value)
    ensures r.Some? ==> forall j | i <= j < r.value :: !Occurs(s, pat, j)
    ensures r.None? ==> forall j | i <= j :: !Occurs(s, pat, j)
    decreases |s| - i
  {
    if i + |pat| > |s| then None
    else if s[i..i + |pat|] == pat then Some(i)
    else IndexFrom(s, pat, i + 1)
  }

  /** The position of the first "\n" at or after i, or the end of s. */
  function LineEnd(s: string, i: nat): (r: nat)
    requires i <= |s|
    ensures i <= r <= |s|
    ensures forall j | i <= j < r :: s[j] != '\n'
    ensures r < |s| ==> s[r] == '\n'
    decreases |s| - i
  {
    if i == |s| || s[i] == '\n' then i else LineEnd(s, i + 1)
  }

  /** re.findall('LMAX=(.*)', text)[0]: the rest of the line after the first "LMAX=", or None where there is none (an IndexError). */
  function FindLmax(text: string): (r: Option<string>)
    ensures r.Some? ==> '\n' !in r.value
    ensures r.Some? <==> exists j :: Occurs(text, "LMAX=", j)
    ensures r.Some? ==> exists i: nat ::
      && Occurs(text, "LMAX=", i) && (forall j: nat | j < i :: !Occurs(text, "LMAX=", j))
      && i + 5 + |r.value| <= |text| && text[i + 5..i + 5 + |r.value|] == r.value
      && (i + 5 + |r.value| == |text| || text[i + 5 + |r.value|] == '\n')
  {
    match IndexFrom(text, "LMAX=", 0)
    case None => None
    case Some(i) =>
      var e := LineEnd(text, i + 5);
      var line := text[i + 5..e];
      assert forall j | 0 <= j < |line| :: line[j] == text[i + 5 + j];
      Some(line)
  }

  /** [line.split() for line in lines]. */
  function WordsEach(lines: seq<string>): (r: seq<seq<string>>)
    ensures |r| == |lines| && forall k | 0 <= k < |lines| :: r[k] == Words(lines[k])
  {
    seq(|lines|, k requires 0 <= k < |lines| => Words(lines[k]))
  }

  /** Atom.fromText: LMAX from the first "LMAX=", coordinates from the lines after the first two; pp and labels as given. */
  function ParseAtom(text: string, pp: string, labels: string): (r: Result<AtomRecord>)
    ensures r.Ok? <==> exists j :: Occurs(text, "LMAX=", j)
    ensures r.Ok? ==> '\n' !in r.value.lmax
    ensures r.Ok? ==> r.value.pp == pp && r.value.labels == labels
    ensures r.Ok? ==> |r.value.coords| == if |SplitLines(text)| <= 2 then 0 else |SplitLines(text)| - 2
  {
    var lines := SplitLines(text);
    match FindLmax(text)
    case None => Err(NoLmax)
    case Some(l) => Ok(AtomRecord(WordsEach(if |lines| <= 2 then [] else lines[2..]), l, pp, labels))
  }

  // ------------------------------------------------------------ round trip

  /** A coordinate the reader gets back as written: exactly three words. */
  predicate Triple(d: seq<string>) {
    |d| == 3 && IsToken(d[0]) && IsToken(d[1]) && IsToken(d[2])
  }

  lemma SpaceNotBreak(s: string)
    requires NoSpace(s)
    ensures NoLineBreak(s)
  {
  }

  lemma SpacesThen(sp: string, t: string)
    requires sp == "  " || sp == "   "
    ensures Words(sp + t) == Words(t)
  {
    assert AllSpace(sp);
    WordsAfterSpace(sp, t);
  }

  /** Indentation, a word, then text starting with a space: the word comes first. */
  lemma IndentedWord(sp: string, t: string, s: string)
    requires sp == "  " || sp == "   "
    requires IsToken(t) && s != [] && s[0] == ' '
    ensures Words(sp + (t + s)) == [t] + Words(s)
  {
    SpacesThen(sp, t + s);
    WordsOfTokenThen(t, s);
  }

  lemma ThreeOf<T>(d: seq<T>)
    requires |d| == 3
    ensures [d[0]] + ([d[1]] + [d[2]]) == d
  {
  }

  /** str.split() gives a coordinate line's three entries back. */
  lemma CoordLineWords(d: seq<string>)
    requires Triple(d)
    ensures Words(CoordLine(d)) == d
  {
    var y := "   " + d[2];
    var x := "   " + (d[1] + y);
    SpacesThen("   ", d[2]);
    WordsOfToken(d[2]);
    IndentedWord("   ", d[1], y);
    IndentedWord("  ", d[0], x);
    ThreeOf(d);
  }

  lemma CoordLinePlain(d: seq<string>)
    requires Triple(d)
    ensures NoLineBreak(CoordLine(d))
  {
    SpaceNotBreak(d[0]);
    SpaceNotBreak(d[1]);
    SpaceNotBreak(d[2]);
  }

  lemma {:induction false} CoordLinesWords(coords: seq<seq<string>>)
    requires forall k | 0 <= k < |coords| :: Triple(coords[k])
    ensures Complete(coords)
    ensures WordsEach(CoordLines(coords)) == coords
    ensures forall l | l in CoordLines(coords) :: NoLineBreak(l)
  {
    forall k | 0 <= k < |coords| ensures Words(CoordLines(coords)[k]) == coords[k] && NoLineBreak(CoordLines(coords)[k]) {
      CoordLineWords(coords[k]);
      CoordLinePlain(coords[k]);
    }
  }

  /** No "LMAX=" starts within leading blanks. */
  lemma {:induction false} IndexAfterIndent(s: string, i: nat, n: nat)
    requires i <= n && Occurs(s, "LMAX=", n)
    requires forall j | i <= j < n :: s[j] == ' '
    ensures IndexFrom(s, "LMAX=", i) == Some(n)
    decreases n - i
  {
    if i < n {
      assert s[i] == ' ';
      assert s[i..i + 5][0] == s[i];
      IndexAfterIndent(s, i + 1, n);
    }
  }

  /** The LMAX line and the count line contain no line break. */
  lemma HeadLinesPlain(a: AtomRecord)
    requires NoLineBreak(a.lmax)
    ensures NoLineBreak(LmaxLine(a)) && NoLineBreak(CountLine(a))
  {
    UpperNoLineBreak(a.lmax);
    DecimalPlain(|a.coords|);
  }

  /** Every line written after the header is free of line breaks. */
  lemma BodyLinesPlain(a: AtomRecord)
    requires forall k | 0 <= k < |a.coords| :: Triple(a.coords[k])
    requires NoLineBreak(a.lmax)
    ensures Complete(a.coords)
    ensures forall l | l in BodyLines(a) :: NoLineBreak(l)
  {
    CoordLinesWords(a.coords);
    HeadLinesPlain(a);
    var head := [LmaxLine(a), CountLine(a)];
    assert forall l | l in head :: NoLineBreak(l);
    PlainAppend(head, CoordLines(a.coords));
  }

  /** The reader finds the written LMAX line. */
  lemma BodyLmax(lmax: string, rest: string)
    requires NoLineBreak(lmax)
    ensures FindLmax("   LMAX=" + Upper(lmax) + "\n" + rest) == Some(Upper(lmax))
  {
    var u := Upper(lmax);
    var text := "   LMAX=" + u + "\n" + rest;
    UpperNoLineBreak(lmax);
    assert '\n' !in u by { assert NoLineBreak(u); }
    assert text[3..8] == "LMAX=";
    IndexAfterIndent(text, 0, 3);
    assert text[8..8 + |u|] == u;
    assert text[8 + |u|] == '\n';
    assert LineEnd(text, 8) == 8 + |u| by {
      forall j | 8 <= j < 8 + |u| ensures text[j] != '\n' {
        assert text[j] == u[j - 8];
        assert u[j - 8] in u;
      }
      LineEndAt(text, 8, 8 + |u|);
    }
  }

  lemma {:induction false} LineEndAt(s: string, i: nat, e: nat)
    requires i <= e < |s| && s[e] == '\n'
    requires forall j | i <= j < e :: s[j] != '\n'
    ensures LineEnd(s, i) == e
    decreases e - i
  {
    if i < e { LineEndAt(s, i + 1, e); }
  }

  /**
    Atom.fromText on the lines Atom.__str__ writes after the header (up to the
    blank line) recovers the coordinates and the upper-cased LMAX, whatever pp
    and labels it is given; the count line is passed over.
   */
  lemma AtomRoundTrip(a: AtomRecord, pp: string, labels: string)
    requires forall k | 0 <= k < |a.coords| :: Triple(a.coords[k])
    requires NoLineBreak(a.lmax)
    ensures Complete(a.coords)
    ensures ParseAtom(Terminated(BodyLines(a)), pp, labels) == Ok(AtomRecord(a.coords, Upper(a.lmax), pp, labels))
  {
    BodyLinesPlain(a);
    CoordLinesWords(a.coords);
    var ls := BodyLines(a);
    SplitTerminated(ls);
    BodyLmax(a.lmax, Terminated(ls[1..]));
    assert Terminated(ls) == LmaxLine(a) + "\n" + Terminated(ls[1..]);
    assert ls[2..] == CoordLines(a.coords);
  }
}
