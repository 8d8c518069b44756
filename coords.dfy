/**
  The part of Input.toCoords (pygmx/scripts/cpmd.py) that is not arithmetic:
  the overlap ids read from the OVERLAPS value, the coordinates of every atom
  in the order of the atoms map, the checks that pair them row by row, and
  the choice of output by the extension of the destination name.
 */
module Coords {
  import opened Outcomes
  import opened PyStr
  import opened OrderedMaps
  import opened Sections
  import opened Atoms
  import opened Inputs

  // ------------------------------------------------------- the extension

  /** out.split('.')[-1]: what follows the last '.', or the whole name when it has none. */
  function LastSegment(s: string): (r: string)
    ensures '.' !in r
    ensures |r| <= |s| && r == s[|s| - |r|..]
    ensures |r| < |s| ==> s[|s| - |r| - 1] == '.'
    decreases |s|
  {
    if s == [] || s[|s| - 1] == '.' then []
    else
      var init := s[..|s| - 1];
      var r := LastSegment(init);
      assert s == init + [s[|s| - 1]];
      r + [s[|s| - 1]]
  }

  /** out.split('.')[-1].lower() */
  function Extension(out: string): string {
    Lower(LastSegment(out))
  }

  /** The segment after the last dot is the whole of what follows that dot. */
  lemma {:induction false} LastSegmentAfterDot(base: string, ext: string)
    requires '.' !in ext
    ensures LastSegment(base + "." + ext) == ext
    decreases |ext|
  {
    var s := base + "." + ext;
    if ext == [] {
      assert s[|s| - 1] == '.';
    } else {
      var init := ext[..|ext| - 1];
      assert ext[|ext| - 1] in ext;
      assert forall c | c in init :: c in ext;
      LastSegmentAfterDot(base, init);
      assert s[..|s| - 1] == base + "." + init;
      assert ext == init + [ext[|ext| - 1]];
    }
  }

  /** A name without a dot is its own extension: out.split('.') is [out]. */
  lemma {:induction false} LastSegmentNoDot(s: string)
    requires '.' !in s
    ensures LastSegment(s) == s
    decreases |s|
  {
    if s != [] {
      var init := s[..|s| - 1];
      assert s[|s| - 1] in s;
      assert forall c | c in init :: c in s;
      LastSegmentNoDot(init);
      assert s == init + [s[|s| - 1]];
    }
  }

  /** The extension of "base.ext" is ext in lower case, whatever base is. */
  lemma ExtensionOf(base: string, ext: string)
    requires '.' !in ext
    ensures Extension(base + "." + ext) == Lower(ext)
  {
    LastSegmentAfterDot(base, ext);
  }

  // ------------------------------------------------------- the overlap ids

  /** int(line.split()[1]) for one overlaps line: its second word, read as an integer. */
  function LineId(line: string): (r: Result<int>)
    ensures r.Ok? <==> |Words(line)| >= 2 && ParseInt(Words(line)[1]).Some?
  {
    var ws := Words(line);
    if |ws| < 2 then Err(MissingToken(line))
    else
      match ParseInt(ws[1])
      case None => Err(NotAnInteger(ws[1]))
      case Some(n) => Ok(n)
  }

  /** A list comprehension whose element may raise: every value in order, or the first failure. */
  function Collect<T>(rs: seq<Result<T>>): (r: Result<seq<T>>)
    ensures r.Ok? <==> forall i | 0 <= i < |rs| :: rs[i].Ok?
    ensures r.Ok? ==> |r.value| == |rs| && forall i | 0 <= i < |rs| :: rs[i] == Ok(r.value[i])
  {
    if rs == [] then Ok([])
    else
      match rs[0]
      case Err(x) => Err(x)
      case Ok(v) =>
        match Collect(rs[1..])
        case Err(x) => Err(x)
        case Ok(vs) => Ok([v] + vs)
  }

  /** When the comprehension fails, it fails with the error of the first element that raises. */
  lemma {:induction false} CollectFirstFailure<T>(rs: seq<Result<T>>)
    requires Collect(rs).Err?
    ensures exists i | 0 <= i < |rs| :: rs[i] == Err(Collect(rs).error) && forall j | 0 <= j < i :: rs[j].Ok?
  {
    if rs[0].Ok? {
      var rest := rs[1..];
      CollectFirstFailure(rest);
      var i :| 0 <= i < |rest| && rest[i] == Err(Collect(rest).error) && forall j | 0 <= j < i :: rest[j].Ok?;
      assert rs[i + 1] == Err(Collect(rs).error);
      assert forall j | 0 <= j < i + 1 :: rs[j].Ok? by {
        forall j | 0 <= j < i + 1 ensures rs[j].Ok? {
          if j > 0 { assert rs[j] == rest[j - 1]; }
        }
      }
    }
  }

  /** The id of every line, each either read or failed. */
  function LineIds(lines: seq<string>): (r: seq<Result<int>>)
    ensures |r| == |lines| && forall i | 0 <= i < |lines| :: r[i] == LineId(lines[i])
  {
    seq(|lines|, i requires 0 <= i < |lines| => LineId(lines[i]))
  }

  /** The comprehension over the lines: every line's id in order, or the failure of the first line without one. */
  function IdsOf(lines: seq<string>): (r: Result<seq<int>>)
    ensures r.Ok? <==> forall i | 0 <= i < |lines| :: LineId(lines[i]).Ok?
    ensures r.Ok? ==> |r.value| == |lines| && forall i | 0 <= i < |lines| :: LineId(lines[i]) == Ok(r.value[i])
  {
    Collect(LineIds(lines))
  }

  /** The ids fail with the error of the first line that has no id. */
  lemma IdsOfFirstFailure(lines: seq<string>)
    requires IdsOf(lines).Err?
    ensures exists i | 0 <= i < |lines| ::
      LineId(lines[i]) == Err(IdsOf(lines).error) && forall j | 0 <= j < i :: LineId(lines[j]).Ok?
  {
    var rs := LineIds(lines);
    CollectFirstFailure(rs);
    var i :| 0 <= i < |rs| && rs[i] == Err(Collect(rs).error) && forall j | 0 <= j < i :: rs[j].Ok?;
    assert LineId(lines[i]) == Err(IdsOf(lines).error);
  }

  /** self.mimic.overlaps.splitlines()[1:] read as ids: the first line, the count, is skipped. */
  function OverlapIds(overlaps: string): Result<seq<int>> {
    var ls := SplitLines(overlaps);
    IdsOf(if ls == [] then [] else ls[1..])
  }

  /** The ids of an OVERLAPS value are those of the lines after its count line. */
  lemma OverlapsValueIds(count: string, rows: seq<string>)
    requires count != [] && NoLineBreak(count)
    requires forall l | l in rows :: l != [] && NoLineBreak(l)
    ensures OverlapIds(JoinLines([count] + rows)) == IdsOf(rows)
  {
    var ls := [count] + rows;
    assert ls[|ls| - 1] != [] by {
      if rows != [] { assert rows[|rows| - 1] in rows; }
    }
    assert forall l | l in ls :: NoLineBreak(l);
    SplitJoined(ls);
    assert ls[1..] == rows;
  }

  /**
    The value Section.fromText stores for an OVERLAPS line whose count n is
    followed by n lines that each name an id holds exactly those n ids, in order.
   */
  lemma StoredOverlapsIds(lines: seq<string>, i: nat, n: nat)
    requires i + n + 2 <= |lines| && lines[i] == "OVERLAPS" && ParseInt(lines[i + 1]) == Some(n)
    requires forall l | l in lines :: NoLineBreak(l)
    requires forall j | i + 2 <= j < i + n + 2 :: LineId(lines[j]).Ok?
    ensures ScanStep(lines, i).Ok? && ScanStep(lines, i).value.param.Some?
    ensures OverlapIds(ScanStep(lines, i).value.param.value.val) == IdsOf(lines[i + 2..i + n + 2])
  {
    OverlapsStep(lines, i, n);
    CountLinePlain(lines, i + 1);
    var rows := lines[i + 2..i + n + 2];
    RowsWithIds(lines, i + 2, i + n + 2, rows);
    JoinedCount(lines, i, n, rows);
  }

  /** The value stored for a count line and the n lines after it reads as the ids of those n lines. */
  lemma JoinedCount(lines: seq<string>, i: nat, n: nat, rows: seq<string>)
    requires i + n + 2 <= |lines| && rows == lines[i + 2..i + n + 2]
    requires lines[i + 1] != [] && NoLineBreak(lines[i + 1])
    requires forall l | l in rows :: l != [] && NoLineBreak(l)
    ensures OverlapIds(JoinLines(lines[i + 1..Min(i + n + 2, |lines|)])) == IdsOf(rows)
  {
    assert Min(i + n + 2, |lines|) == i + n + 2;
    HeadSlice(lines, i + 1, i + n + 2);
    JoinedIds(lines[i + 1..i + n + 2], lines[i + 1], rows);
  }

  /** Lines that each name an id give one id per line. */
  lemma IdsOfRows(lines: seq<string>, a: nat, b: nat)
    requires a <= b <= |lines|
    requires forall j | a <= j < b :: LineId(lines[j]).Ok?
    ensures IdsOf(lines[a..b]).Ok? && |IdsOf(lines[a..b]).value| == b - a
  {
    var rows := lines[a..b];
    forall k | 0 <= k < |rows| ensures LineId(rows[k]).Ok? {
      assert rows[k] == lines[a + k];
    }
  }

  lemma JoinedIds(seg: seq<string>, count: string, rows: seq<string>)
    requires seg == [count] + rows
    requires count != [] && NoLineBreak(count)
    requires forall l | l in rows :: l != [] && NoLineBreak(l)
    ensures OverlapIds(JoinLines(seg)) == IdsOf(rows)
  {
    OverlapsValueIds(count, rows);
  }

  /** The count line of an OVERLAPS block is a non-empty line. */
  lemma CountLinePlain(lines: seq<string>, j: nat)
    requires j < |lines| && ParseInt(lines[j]).Some?
    requires forall l | l in lines :: NoLineBreak(l)
    ensures lines[j] != [] && NoLineBreak(lines[j])
  {
    ParsedNotEmpty(lines[j]);
    assert lines[j] in lines;
  }

  /** int() of the empty text fails. */
  lemma ParsedNotEmpty(s: string)
    requires ParseInt(s).Some?
    ensures s != []
  {
  }

  lemma HeadSlice<T>(s: seq<T>, a: nat, b: nat)
    requires a < b <= |s|
    ensures s[a..b] == [s[a]] + s[a + 1..b]
  {
  }

  lemma AroundIndex<T>(s: seq<T>, i: nat)
    requires i < |s|
    ensures s == (s[..i] + [s[i]]) + s[i + 1..]
  {
  }

  /** Lines that name an id are not empty. */
  lemma RowsWithIds(lines: seq<string>, a: nat, b: nat, rows: seq<string>)
    requires a <= b <= |lines| && rows == lines[a..b]
    requires forall l | l in lines :: NoLineBreak(l)
    requires forall j | a <= j < b :: LineId(lines[j]).Ok?
    ensures forall l | l in rows :: l != [] && NoLineBreak(l)
  {
    forall l | l in rows ensures l != [] && NoLineBreak(l) {
      var j :| a <= j < b && lines[j] == l;
      assert LineId(lines[j]).Ok?;
      assert lines[j] in lines;
    }
  }

  // ------------------------------------------------------- the coordinates

  /** chain.from_iterable(v.coords for v in atoms.values()): all coordinates, atom after atom. */
  function Flatten(m: seq<Entry<AtomRecord>>): seq<seq<string>>
    decreases |m|
  {
    if m == [] then [] else Flatten(m[..|m| - 1]) + m[|m| - 1].val.coords
  }

  /** Flattening two maps one after the other is flattening each and concatenating. */
  lemma {:induction false} FlattenAppend(a: seq<Entry<AtomRecord>>, b: seq<Entry<AtomRecord>>)
    ensures Flatten(a + b) == Flatten(a) + Flatten(b)
    decreases |b|
  {
    if b == [] {
      assert a + b == a;
    } else {
      var init := b[..|b| - 1];
      assert (a + b)[..|a + b| - 1] == a + init;
      FlattenAppend(a, init);
    }
  }

  /** Each atom's coordinates sit between those of the atoms before it and those after it. */
  lemma FlattenAround(m: seq<Entry<AtomRecord>>, i: nat)
    requires i < |m|
    ensures Flatten(m) == Flatten(m[..i]) + m[i].val.coords + Flatten(m[i + 1..])
  {
    var pre, post := m[..i], m[i + 1..];
    AroundIndex(m, i);
    FlattenAppend(pre + [m[i]], post);
    FlattenOne(pre, m[i]);
  }

  lemma FlattenOne(m: seq<Entry<AtomRecord>>, e: Entry<AtomRecord>)
    ensures Flatten(m + [e]) == Flatten(m) + e.val.coords
  {
    assert (m + [e])[..|m|] == m;
  }

  /**
    Reading an atom of an element already in the map puts its coordinates
    where the old atom's were: the rows of the other atoms do not move.
   */
  lemma OverwriteKeepsPlace(m: seq<Entry<AtomRecord>>, i: nat, a: AtomRecord)
    requires i < |m|
    ensures Flatten(m[i := Entry(m[i].key, a)]) == Flatten(m[..i]) + a.coords + Flatten(m[i + 1..])
  {
    var m' := m[i := Entry(m[i].key, a)];
    FlattenAround(m', i);
    assert m'[..i] == m[..i] && m'[i + 1..] == m[i + 1..];
  }

  /** The number of columns of pd.DataFrame(rows): the length of the longest row. */
  function Width(rows: seq<seq<string>>): (w: nat)
    ensures forall i | 0 <= i < |rows| :: |rows[i]| <= w
    ensures rows != [] ==> exists i | 0 <= i < |rows| :: |rows[i]| == w
    decreases |rows|
  {
    if rows == [] then 0
    else
      var w := Width(rows[1..]);
      if |rows[0]| >= w then |rows[0]|
      else
        ghost var i :| 0 <= i < |rows[1..]| && |rows[1..][i]| == w;
        assert |rows[i + 1]| == w;
        w
  }

  /** cpmd_coords.columns = ['x', 'y', 'z'] succeeds: there are rows and the widest has three entries. */
  predicate ThreeColumns(rows: seq<seq<string>>) {
    rows != [] && Width(rows) == 3
  }

  // ------------------------------------------------------- toCoords

  /** One row of the merged table: an overlap id and the coordinates paired with it. */
  datatype Row = Row(id: int, coords: seq<string>)

  /** cpmd_coords['id'] = ids: the k-th id goes with the k-th row. */
  function Pair(ids: seq<int>, rows: seq<seq<string>>): (r: seq<Row>)
    requires |ids| == |rows|
    ensures |r| == |ids| && forall k | 0 <= k < |r| :: r[k] == Row(ids[k], rows[k])
  {
    seq(|ids|, k requires 0 <= k < |ids| => Row(ids[k], rows[k]))
  }

  /** self.atoms: the atoms map of the script, when the attribute holds one. */
  function AtomsOf(doc: Doc): Option<seq<Entry<AtomRecord>>> {
    var f := Get(doc, "atoms");
    if f.Some? && f.value.AtomMap? then Some(f.value.atoms) else None
  }

  /**
    Input.toCoords up to the writer: the ids (the overlaps text is the value
    self.mimic.overlaps looks up), the coordinates, the column and length
    checks, then the extension, of which only pdb has a writer: for any other
    the write reads out_txt before it was ever assigned.
   */
  function ToCoords(doc: Doc, overlaps: string, out: string): (r: Result<seq<Row>>)
    ensures r.Ok? <==>
      && OverlapIds(overlaps).Ok? && AtomsOf(doc).Some?
      && ThreeColumns(Flatten(AtomsOf(doc).value))
      && |OverlapIds(overlaps).value| == |Flatten(AtomsOf(doc).value)|
      && Extension(out) == "pdb"
    ensures r.Ok? ==> var ids, rows := OverlapIds(overlaps).value, Flatten(AtomsOf(doc).value);
      |r.value| == |rows| && forall k | 0 <= k < |r.value| :: r.value[k] == Row(ids[k], rows[k])
    ensures OverlapIds(overlaps).Err? ==> r == Err(OverlapIds(overlaps).error)
    ensures OverlapIds(overlaps).Ok? && AtomsOf(doc).Some? && ThreeColumns(Flatten(AtomsOf(doc).value))
      && |OverlapIds(overlaps).value| == |Flatten(AtomsOf(doc).value)| && Extension(out) != "pdb"
      ==> r == Err(Unbound("out_txt"))
  {
    var ext := Extension(out);
    match OverlapIds(overlaps)
    case Err(x) => Err(x)
    case Ok(ids) =>
      match AtomsOf(doc)
      case None => Err(NoAtomMap)
      case Some(m) =>
        var rows := Flatten(m);
        if !ThreeColumns(rows) then Err(ColumnMismatch)
        else if |ids| != |rows| then Err(LengthMismatch(|ids|, |rows|))
        else if ext != "pdb" then Err(Unbound("out_txt"))
        else Ok(Pair(ids, rows))
  }

  /** The outcome depends on the destination name only through its extension. */
  lemma SameExtension(doc: Doc, overlaps: string, out: string, out': string)
    requires Extension(out) == Extension(out')
    ensures ToCoords(doc, overlaps, out) == ToCoords(doc, overlaps, out')
  {
  }

  lemma LowerGro()
    ensures Lower("gro") == "gro" && Lower("GRO") == "gro"
  {
  }

  lemma LowerPdb()
    ensures Lower("pdb") == "pdb" && Lower("PDB") == "pdb"
  {
  }

  /** A .gro destination never gets output, in any case: no writer is chosen for it. */
  lemma GroNotWritten(doc: Doc, overlaps: string, base: string)
    ensures ToCoords(doc, overlaps, base + "." + "gro").Err?
    ensures ToCoords(doc, overlaps, base + "." + "GRO").Err?
  {
    ExtensionOf(base, "gro");
    ExtensionOf(base, "GRO");
    LowerGro();
  }

  /** The extension is compared without regard to case: base.PDB is written like base.pdb. */
  lemma PdbAnyCase(doc: Doc, overlaps: string, base: string)
    ensures ToCoords(doc, overlaps, base + "." + "PDB") == ToCoords(doc, overlaps, base + "." + "pdb")
  {
    ExtensionOf(base, "PDB");
    ExtensionOf(base, "pdb");
    LowerPdb();
    SameExtension(doc, overlaps, base + "." + "PDB", base + "." + "pdb");
  }

  /** A name without a dot is taken whole as its extension, so "pdb" itself is a pdb destination. */
  lemma BareNameIsExtension(out: string)
    requires '.' !in out
    ensures Extension(out) == Lower(out)
  {
    LastSegmentNoDot(out);
  }
}
