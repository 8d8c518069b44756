/**
  A CPMD section (class Section in pygmx/scripts/cpmd.py): an insertion-ordered
  bag of parameters read from the body of a `&NAME ... &END` block by a
  one-line-lookahead scanner, and written back one name line and, when the
  value is not blank, one value line per parameter.
 */
module Sections {
  import opened Outcomes
  import opened PyStr
  import opened OrderedMaps
  import opened Numeric

  /** A section's parameters in order; None is an attribute set to None. */
  type Params = seq<Entry<Option<string>>>

  function Min(a: int, b: int): int { if a < b then a else b }

  function Max(a: int, b: int): int { if a < b then b else a }

  // ------------------------------------------------------------ scanning

  /** What one pass of the scanning loop does at cursor i: the parameter it sets, if any, and the next cursor. */
  datatype Step = Step(param: Option<Entry<string>>, next: nat)

  /**
    One pass of the loop of Section.fromText at cursor i (i is not the last line).
    A PATHS line takes the next two lines, an OVERLAPS line takes a count line and
    that many more; otherwise a line followed by a numeric line is a parameter with
    that value, a non-numeric line is a flag, and a numeric line is passed over.
    A negative OVERLAPS count is refused (see OverlapsPassAsWritten).
   */
  function ScanStep(lines: seq<string>, i: nat): (r: Result<Step>)
    requires i + 1 < |lines|
    ensures r.Ok? ==> r.value.next > i
    ensures r.Ok? && r.value.param.Some? ==> r.value.param.value.key == lines[i]
  {
    if lines[i] == "PATHS" then PathsStep(lines, i)
    else if lines[i] == "OVERLAPS" then CountStep(lines, i)
    else NameStep(lines, i)
  }

  /** The PATHS branch: the next (up to) two lines are the value. */
  function PathsStep(lines: seq<string>, i: nat): (r: Result<Step>)
    requires i + 1 < |lines|
  {
    Ok(Step(Some(Entry("PATHS", JoinLines(lines[i + 1..Min(i + 3, |lines|)]))), i + 3))
  }

  /** The OVERLAPS branch: a count line, then that many lines. */
  function CountStep(lines: seq<string>, i: nat): (r: Result<Step>)
    requires i + 1 < |lines|
    ensures r.Ok? ==> r.value.next > i && r.value.param.Some? && r.value.param.value.key == "OVERLAPS"
  {
    CountFrom(lines, i, ParseInt(lines[i + 1]))
  }

  /** The OVERLAPS branch once int() has read (or failed to read) the count line. */
  function CountFrom(lines: seq<string>, i: nat, no: Option<int>): (r: Result<Step>)
    requires i + 1 < |lines|
  {
    match no
    case None => Err(NotAnInteger(lines[i + 1]))
    case Some(n) =>
      if n < -1 then Err(NegativeCount(n))
      else Ok(Step(Some(Entry("OVERLAPS", JoinLines(lines[i + 1..Min(i + n + 2, |lines|)]))), i + n + 2))
  }

  /** Any other line: a parameter with a value, a flag, or nothing. */
  function NameStep(lines: seq<string>, i: nat): (r: Result<Step>)
    requires i + 1 < |lines|
    ensures r.Ok? && r.value.next == i + 1
    ensures r.value.param.Some? ==> r.value.param.value.key == lines[i]
  {
    if ChkNumeric(lines[i + 1]) then Ok(Step(Some(Entry(lines[i], lines[i + 1])), i + 1))
    else if !ChkNumeric(lines[i]) then Ok(Step(Some(Entry(lines[i], "")), i + 1))
    else Ok(Step(None, i + 1))
  }

  lemma CountIsScan(lines: seq<string>, i: nat)
    requires i + 1 < |lines| && lines[i] == "OVERLAPS"
    ensures ScanStep(lines, i) == CountStep(lines, i)
  {
    assert |lines[i]| == 8;
  }

  lemma NameIsScan(lines: seq<string>, i: nat)
    requires i + 1 < |lines| && lines[i] != "PATHS" && lines[i] != "OVERLAPS"
    ensures ScanStep(lines, i) == NameStep(lines, i)
  {
  }

  /** setattr(section, name, value) for the parameter a pass sets. */
  function Apply(acc: Params, param: Option<Entry<string>>): Params {
    match param
    case None => acc
    case Some(e) => Put(acc, e.key, Some(e.val))
  }

  /** Some line before the last one reads k. */
  predicate NameLine(lines: seq<string>, k: string) {
    exists j | 0 <= j < |lines| - 1 :: lines[j] == k
  }

  /**
    The scanning loop from cursor i with parameters acc so far. Names stay
    unique, and every name it adds is a line other than the last: the last line
    is never read as a name, so a flag standing there is dropped.
   */
  function Scan(lines: seq<string>, i: nat, acc: Params): (r: Result<Params>)
    requires Distinct(Keys(acc))
    ensures r.Ok? ==> Distinct(Keys(r.value))
    ensures r.Ok? ==> forall k | k in Keys(r.value) :: k in Keys(acc) || NameLine(lines, k)
    decreases |lines| - i
  {
    if i + 1 >= |lines| then Ok(acc)
    else
      match ScanStep(lines, i)
      case Err(e) => Err(e)
      case Ok(st) =>
        var acc' := Apply(acc, st.param);
        assert Distinct(Keys(acc')) by {
          if st.param.Some? { PutDistinct(acc, st.param.value.key, Some(st.param.value.val)); }
        }
        assert forall k | k in Keys(acc') :: k in Keys(acc) || NameLine(lines, k) by {
          assert lines[i] == lines[i];
        }
        Scan(lines, st.next, acc')
  }

  /** Section.fromText as a value: the loop run over the text's lines from cursor 0. */
  function Parse(text: string): Result<Params> {
    Scan(SplitLines(text), 0, [])
  }

  /** A pass that succeeds hands its cursor and parameters on to the rest of the scan. */
  lemma ScanAdvance(lines: seq<string>, i: nat, acc: Params)
    requires Distinct(Keys(acc)) && i + 1 < |lines| && ScanStep(lines, i).Ok?
    ensures Distinct(Keys(Apply(acc, ScanStep(lines, i).value.param)))
    ensures Scan(lines, i, acc) == Scan(lines, ScanStep(lines, i).value.next, Apply(acc, ScanStep(lines, i).value.param))
  {
    var st := ScanStep(lines, i).value;
    if st.param.Some? { PutDistinct(acc, st.param.value.key, Some(st.param.value.val)); }
  }

  /** An OVERLAPS line whose count is not an integer, or is below -1, fails the pass. */
  lemma OverlapsFails(lines: seq<string>, i: nat)
    requires i + 1 < |lines| && lines[i] == "OVERLAPS"
    ensures ParseInt(lines[i + 1]).None? ==> ScanStep(lines, i) == Err(NotAnInteger(lines[i + 1]))
    ensures ParseInt(lines[i + 1]).Some? && ParseInt(lines[i + 1]).value < -1 ==>
      ScanStep(lines, i) == Err(NegativeCount(ParseInt(lines[i + 1]).value))
  {
    CountIsScan(lines, i);
  }

  /** The section and cursor after a pass, or the pass's failure. */
  function Advanced(section: Params, step: Result<Step>): Result<(Params, nat)> {
    match step
    case Err(e) => Err(e)
    case Ok(st) => Ok((Apply(section, st.param), st.next))
  }

  // Each branch of the loop body against the pass it computes: sec and next are
  // the section and cursor the branch leaves, before the cursor's final step.

  lemma PassPaths(lines: seq<string>, i: nat, section: Params, sec: Params, next: nat)
    requires i + 1 < |lines| && lines[i] == "PATHS"
    requires sec == Put(section, lines[i], Some(JoinLines(lines[i + 1..Min(i + 3, |lines|)]))) && next == i + 2
    ensures Advanced(section, ScanStep(lines, i)) == Ok((sec, next + 1))
  {
    assert ScanStep(lines, i) == PathsStep(lines, i);
  }

  lemma PassOverlaps(lines: seq<string>, i: nat, section: Params, no: Option<int>, sec: Params, next: nat)
    requires i + 1 < |lines| && lines[i] == "OVERLAPS"
    requires no.Some? && no.value >= -1
    requires sec == Put(section, lines[i], Some(JoinLines(lines[i + 1..Min(i + no.value + 2, |lines|)]))) && next == i + no.value + 1
    ensures Advanced(section, CountFrom(lines, i, no)) == Ok((sec, next + 1))
  {
    var n := no.value;
    var v := JoinLines(lines[i + 1..Min(i + n + 2, |lines|)]);
    var st := Step(Some(Entry("OVERLAPS", v)), i + n + 2);
    assert CountFrom(lines, i, no) == Ok(st) by {
      CountOf(lines, i, n);
    }
    assert Apply(section, st.param) == sec by {
      ApplyNamed(section, lines[i], "OVERLAPS", v);
    }
    assert Advanced(section, Ok(st)) == Ok((sec, next + 1));
  }

  lemma ApplyNamed(section: Params, name: string, key: string, v: string)
    requires name == key
    ensures Apply(section, Some(Entry(key, v))) == Put(section, name, Some(v))
  {
  }

  lemma PassValue(lines: seq<string>, i: nat, section: Params, sec: Params)
    requires i + 1 < |lines| && lines[i] != "PATHS" && lines[i] != "OVERLAPS"
    requires ChkNumeric(lines[i + 1])
    requires sec == Put(section, lines[i], Some(lines[i + 1]))
    ensures Advanced(section, ScanStep(lines, i)) == Ok((sec, i + 1))
  {
    NameIsScan(lines, i);
    assert NameStep(lines, i) == Ok(Step(Some(Entry(lines[i], lines[i + 1])), i + 1));
  }

  lemma PassFlag(lines: seq<string>, i: nat, section: Params, sec: Params)
    requires i + 1 < |lines| && lines[i] != "PATHS" && lines[i] != "OVERLAPS"
    requires !ChkNumeric(lines[i + 1]) && !ChkNumeric(lines[i])
    requires sec == Put(section, lines[i], Some(""))
    ensures Advanced(section, ScanStep(lines, i)) == Ok((sec, i + 1))
  {
    NameIsScan(lines, i);
    assert NameStep(lines, i) == Ok(Step(Some(Entry(lines[i], "")), i + 1));
  }

  lemma PassSkip(lines: seq<string>, i: nat, section: Params)
    requires i + 1 < |lines| && lines[i] != "PATHS" && lines[i] != "OVERLAPS"
    requires !ChkNumeric(lines[i + 1]) && ChkNumeric(lines[i])
    ensures Advanced(section, ScanStep(lines, i)) == Ok((section, i + 1))
  {
    NameIsScan(lines, i);
    assert NameStep(lines, i) == Ok(Step(None, i + 1));
  }

  /**
    The body of the loop of Section.fromText at cursor i: the branches as the
    source writes them, updating the section and moving the cursor (each branch
    takes the loop's closing step of one line).
   */
  method Pass(lines: seq<string>, i: nat, section: Params) returns (r: Result<(Params, nat)>)
    requires i + 1 < |lines|
    ensures r == Advanced(section, ScanStep(lines, i))
  {
    if lines[i] == "PATHS" {
      var sec := Put(section, lines[i], Some(JoinLines(lines[i + 1..Min(i + 3, |lines|)])));
      var next := i + 2;
      PassPaths(lines, i, section, sec, next);
      r := Ok((sec, next + 1));
    } else if lines[i] == "OVERLAPS" {
      CountIsScan(lines, i);
      var no := ParseInt(lines[i + 1]);
      r := PassCount(lines, i, section, no);
    } else {
      var sec := PassName(lines, i, section);
      r := Ok((sec, i + 1));
    }
  }

  /** The OVERLAPS branch: a count line, then that many lines; it fails where int() raises, and where the count is below -1. */
  method PassCount(lines: seq<string>, i: nat, section: Params, no: Option<int>) returns (r: Result<(Params, nat)>)
    requires i + 1 < |lines| && lines[i] == "OVERLAPS"
    ensures r == Advanced(section, CountFrom(lines, i, no))
  {
    if no.None? {
      return Err(NotAnInteger(lines[i + 1]));
    }
    if no.value < -1 {
      return Err(NegativeCount(no.value));
    }
    var sec := Put(section, lines[i], Some(JoinLines(lines[i + 1..Min(i + no.value + 2, |lines|)])));
    var next := i + no.value + 1;
    PassOverlaps(lines, i, section, no, sec, next);
    r := Ok((sec, next + 1));
  }

  /** The last two branches of the loop body: a parameter with a value, a flag, or nothing. */
  method PassName(lines: seq<string>, i: nat, section: Params) returns (sec: Params)
    requires i + 1 < |lines| && lines[i] != "PATHS" && lines[i] != "OVERLAPS"
    ensures Advanced(section, ScanStep(lines, i)) == Ok((sec, i + 1))
  {
    sec := section;
    if ChkNumeric(lines[i + 1]) {
      sec := Put(sec, lines[i], Some(lines[i + 1]));
      PassValue(lines, i, section, sec);
    } else if !ChkNumeric(lines[i]) {
      sec := Put(sec, lines[i], Some(""));
      PassFlag(lines, i, section, sec);
    } else {
      PassSkip(lines, i, section);
    }
  }

  /** Section.fromText: the scanning loop with its mutable cursor. */
  method FromText(text: string) returns (r: Result<Params>)
    ensures r == Parse(text)
  {
    var lines := SplitLines(text);
    var section: Params := [];
    var i: nat := 0;
    while i < |lines| - 1
      invariant Distinct(Keys(section))
      invariant Scan(lines, i, section) == Scan(lines, 0, [])
      decreases |lines| - i
    {
      var pass := Pass(lines, i, section);
      if pass.Err? {
        return Err(pass.error);
      }
      ScanAdvance(lines, i, section);
      section, i := pass.value.0, pass.value.1;
    }
    r := Ok(section);
  }

  // -------------------------------------------- the OVERLAPS count as written

  /** Python's ls[a:b]: bounds below zero count from the end, all bounds are clamped. */
  function PySlice(ls: seq<string>, a: int, b: int): seq<string> {
    var lo := if a < 0 then Max(a + |ls|, 0) else Min(a, |ls|);
    var hi := if b < 0 then Max(b + |ls|, 0) else Min(b, |ls|);
    if lo >= hi then [] else ls[lo..hi]
  }

  /**
    The OVERLAPS pass exactly as the source writes it: any integer count n is
    accepted, the value is lines[i+1:i+n+2], and the cursor moves by n + 1 and
    then by 1. None when the count line is not an integer.
   */
  function OverlapsPassAsWritten(lines: seq<string>, i: nat, acc: Params): (r: Option<(int, Params)>)
    requires i + 1 < |lines| && lines[i] == "OVERLAPS"
    ensures r.Some? <==> ParseInt(lines[i + 1]).Some?
    ensures r.Some? ==> (i < r.value.0 <==> -1 <= ParseInt(lines[i + 1]).value)
  {
    AsWrittenFrom(lines, i, acc, ParseInt(lines[i + 1]))
  }

  /** The OVERLAPS pass as written, once int() has read (or failed to read) the count line. */
  function AsWrittenFrom(lines: seq<string>, i: nat, acc: Params, no: Option<int>): Option<(int, Params)> {
    match no
    case None => None
    case Some(n) => Some((i + n + 2, Put(acc, "OVERLAPS", Some(JoinLines(PySlice(lines, i + 1, i + n + 2))))))
  }

  /**
    With the count -2 the pass as written puts the cursor back where it was and
    sets the same parameter again: the loop state repeats and the loop never ends.
   */
  lemma NegativeCountLoopsForever(acc: Params)
    ensures var lines := ["OVERLAPS", "-2"];
      var again := Put(acc, "OVERLAPS", Some(""));
      && OverlapsPassAsWritten(lines, 0, acc) == Some((0, again))
      && OverlapsPassAsWritten(lines, 0, again) == Some((0, again))
  {
    var lines := ["OVERLAPS", "-2"];
    assert lines[1] == "-2";
    assert Strip("-2") == "-2" by { StripUnpadded("-2"); }
    assert "-2"[1..] == "2";
    assert GroupsValue("2") == 2 by { assert "2"[..0] == []; }
    assert ParseInt(lines[1]) == Some(-2);
    assert PySlice(lines, 1, 0) == [];
    assert JoinLines([]) == "";
    var again := Put(acc, "OVERLAPS", Some(""));
    assert OverlapsPassAsWritten(lines, 0, acc) == Some((0, again));
    assert Get(again, "OVERLAPS") == Some(Some(""));
    assert Put(again, "OVERLAPS", Some("")) == again by { PutSame(again, "OVERLAPS", Some("")); }
  }

  /**
    The count -1 is harmless: the value is the empty slice, the cursor moves one
    line on, and both the pass as written and the corrected scan end there.
   */
  lemma MinusOneCountIsEmpty(acc: Params)
    requires Distinct(Keys(acc))
    ensures var lines := ["OVERLAPS", "-1"];
      && OverlapsPassAsWritten(lines, 0, acc) == Some((1, Put(acc, "OVERLAPS", Some(""))))
      && Scan(lines, 0, acc) == Ok(Put(acc, "OVERLAPS", Some("")))
  {
    var lines := ["OVERLAPS", "-1"];
    assert lines[1] == "-1";
    assert Strip("-1") == "-1" by { StripUnpadded("-1"); }
    assert "-1"[1..] == "1";
    assert GroupsValue("1") == 1 by { assert "1"[..0] == []; }
    assert ParseInt(lines[1]) == Some(-1);
    assert PySlice(lines, 1, 1) == [];
    assert lines[1..1] == [];
    assert JoinLines([]) == "";
    OverlapsStep(lines, 0, -1);
    ScanAdvance(lines, 0, acc);
  }

  /** For counts from -1 up, the corrected pass is the pass as written. */
  lemma ScanStepMatchesAsWritten(lines: seq<string>, i: nat, acc: Params)
    requires i + 1 < |lines| && lines[i] == "OVERLAPS"
    requires ParseInt(lines[i + 1]).Some? && ParseInt(lines[i + 1]).value >= -1
    ensures ScanStep(lines, i).Ok?
    ensures OverlapsPassAsWritten(lines, i, acc)
         == Some((ScanStep(lines, i).value.next, Apply(acc, ScanStep(lines, i).value.param)))
  {
    CountIsScan(lines, i);
    var no := ParseInt(lines[i + 1]);
    assert no == Some(no.value);
    CountMatchesAsWritten(lines, i, acc, no.value);
  }

  lemma CountMatchesAsWritten(lines: seq<string>, i: nat, acc: Params, n: int)
    requires i + 1 < |lines| && n >= -1
    ensures CountFrom(lines, i, Some(n)).Ok?
    ensures AsWrittenFrom(lines, i, acc, Some(n)) == Some((CountFrom(lines, i, Some(n)).value.next, Apply(acc, CountFrom(lines, i, Some(n)).value.param)))
  {
    var v := JoinLines(lines[i + 1..Min(i + n + 2, |lines|)]);
    CountOf(lines, i, n);
    ApplyNamed(acc, "OVERLAPS", "OVERLAPS", v);
    AsWrittenOf(lines, i, acc, n);
  }

  lemma AsWrittenOf(lines: seq<string>, i: nat, acc: Params, n: int)
    requires i + 1 < |lines| && n >= -1
    ensures AsWrittenFrom(lines, i, acc, Some(n)) == Some((i + n + 2, Put(acc, "OVERLAPS", Some(JoinLines(lines[i + 1..Min(i + n + 2, |lines|)])))))
  {
    SliceForward(lines, i + 1, i + n + 2);
  }

  /** A Python slice with bounds from inside the list forward is the sequence slice, cut at the end. */
  lemma SliceForward(ls: seq<string>, a: int, b: int)
    requires 0 <= a < |ls| && a <= b
    ensures PySlice(ls, a, b) == ls[a..Min(b, |ls|)]
  {
  }

  /** The corrected pass on an OVERLAPS line with a count n >= -1. */
  lemma OverlapsStep(lines: seq<string>, i: nat, n: int)
    requires i + 1 < |lines| && lines[i] == "OVERLAPS"
    requires ParseInt(lines[i + 1]) == Some(n) && n >= -1
    ensures ScanStep(lines, i) == Ok(Step(Some(Entry("OVERLAPS", JoinLines(lines[i + 1..Min(i + n + 2, |lines|)]))), i + n + 2))
  {
    CountIsScan(lines, i);
    CountOf(lines, i, n);
  }

  lemma CountOf(lines: seq<string>, i: nat, n: int)
    requires i + 1 < |lines| && n >= -1
    ensures CountFrom(lines, i, Some(n)) == Ok(Step(Some(Entry("OVERLAPS", JoinLines(lines[i + 1..Min(i + n + 2, |lines|)]))), i + n + 2))
  {
  }

  // ------------------------------------------------------------ rendering

  /** The name as written: '_' becomes '-', then "--" a space, then upper case. */
  function CanonName(d: string): string {
    Upper(ReplaceAll(ReplaceAll(d, "_", "-"), "--", " "))
  }

  /** The lines written for one parameter: none when unset, the name, then the stripped value unless blank. */
  function ParamLines(p: Entry<Option<string>>): seq<string> {
    NamedLines(CanonName(p.key), if p.val.Some? then Some(Strip(p.val.value)) else None)
  }

  /** The lines written under a name and a value both already in their written form. */
  function NamedLines(name: string, val: Option<string>): seq<string> {
    match val
    case None => []
    case Some(w) => if w == "" then [name] else [name, w]
  }

  function RenderLines(ps: Params): seq<string> {
    if ps == [] then [] else ParamLines(ps[0]) + RenderLines(ps[1..])
  }

  /** Section.__str__ as a value: every written line ended by "\n". */
  function Render(ps: Params): string {
    Terminated(RenderLines(ps))
  }

  lemma {:induction false} RenderLinesAppend(ps: Params, p: Entry<Option<string>>)
    ensures RenderLines(ps + [p]) == RenderLines(ps) + ParamLines(p)
  {
    if ps == [] {
      assert ps + [p] == [p];
    } else {
      assert (ps + [p])[1..] == ps[1..] + [p];
      RenderLinesAppend(ps[1..], p);
    }
  }

  /** The text one set parameter contributes: its written name, then its stripped value unless blank. */
  lemma ParamText(p: Entry<Option<string>>, name: string, v: string)
    requires p.val.Some? && name == CanonName(p.key) && v == Strip(p.val.value)
    ensures Terminated(ParamLines(p)) == if v == "" then name + "\n" else name + "\n" + v + "\n"
  {
    TerminatedTwo(name, v);
  }

  /** Writing one more parameter appends its lines to the text written so far. */
  lemma RenderPrefix(ps: Params, k: nat)
    requires k < |ps|
    ensures Render(ps[..k + 1]) == Render(ps[..k]) + Terminated(ParamLines(ps[k]))
  {
    assert ps[..k + 1] == ps[..k] + [ps[k]];
    RenderLinesAppend(ps[..k], ps[k]);
    TerminatedAppend(RenderLines(ps[..k]), ParamLines(ps[k]));
  }

  /** Section.__str__: the loop that appends each parameter's lines. */
  method ToText(ps: Params) returns (val: string)
    ensures val == Render(ps)
  {
    val := "";
    for k := 0 to |ps|
      invariant val == Render(ps[..k])
    {
      RenderPrefix(ps, k);
      if ps[k].val.Some? {
        var name := CanonName(ps[k].key);
        var v := Strip(ps[k].val.value);
        ParamText(ps[k], name, v);
        if v == "" {
          val := val + (name + "\n");
        } else {
          val := val + (name + "\n" + v + "\n");
        }
      }
    }
    assert ps[..|ps|] == ps;
  }

  /** The parameters whose value is set, in order. */
  function SetOnly(ps: Params): (r: Params)
    ensures forall p | p in r :: p in ps && p.val.Some?
  {
    if ps == [] then []
    else if ps[0].val.None? then SetOnly(ps[1..])
    else [ps[0]] + SetOnly(ps[1..])
  }

  /** Parameters set to None are not written. */
  lemma {:induction false} RenderSkipsUnset(ps: Params)
    ensures RenderLines(ps) == RenderLines(SetOnly(ps))
  {
    if ps != [] {
      RenderSkipsUnset(ps[1..]);
      if ps[0].val.Some? {
        assert ([ps[0]] + SetOnly(ps[1..]))[1..] == SetOnly(ps[1..]);
      }
    }
  }

  /** A written name has no '_' and no "--" and is upper case, so writing it again changes nothing. */
  lemma CanonNameIdempotent(d: string)
    ensures CanonName(CanonName(d)) == CanonName(d)
  {
    var a := ReplaceAll(d, "_", "-");
    var b := ReplaceAll(a, "--", " ");
    var c := Upper(b);
    ReplaceMembers(d, "_", "-");
    ReplaceMembers(a, "--", " ");
    assert '_' !in a by {
      DeleteCharMembers(d, '_');
      assert forall x | x in a :: (x in d && x != '_') || x in "-" by {
        forall x | x in a ensures (x in d && x != '_') || x in "-" {
          ReplaceCharMembers(d, '_', "-");
        }
      }
    }
    assert '_' !in c by {
      forall j | 0 <= j < |c| ensures c[j] != '_' { assert b[j] in b; }
    }
    ContainsChar(c, '_');
    ReplaceAbsent(c, "_", "-");
    CollapseDashes(a);
    assert NoDoubleDash(c) by {
      forall j | 0 <= j < |c| - 1 && c[j] == '-' ensures c[j + 1] != '-' {
        assert b[j] == '-';
      }
    }
    NoDoubleDashNotContains(c);
    ReplaceAbsent(c, "--", " ");
    UpperIdempotent(b);
  }

  /** Replacing a character by a text keeps every other character and adds only the text's. */
  lemma {:induction false} ReplaceCharMembers(s: string, x: char, rep: string)
    ensures forall c | c in ReplaceAll(s, [x], rep) :: (c in s && c != x) || c in rep
  {
    if |s| >= 1 {
      ReplaceCharMembers(s[1..], x, rep);
      assert s == [s[0]] + s[1..];
      if s[..1] == [x] {
        assert s[1..] == s[|[x]|..];
      }
    }
  }

  // ------------------------------------------------------------ round trip

  /** The rows one parameter's written text splits into: its name, then the lines of its stripped value. */
  function ParamRows(p: Entry<Option<string>>): seq<string> {
    match p.val
    case None => []
    case Some(v) => NameRows(CanonName(p.key), Strip(v))
  }

  /** The rows under a name and a value both already in their written form. */
  function NameRows(name: string, w: string): seq<string> {
    [name] + SplitLines(w)
  }

  /** The rows the whole written section splits into, parameter by parameter. */
  function WrittenRows(ps: Params): seq<string> {
    if ps == [] then [] else ParamRows(ps[0]) + WrittenRows(ps[1..])
  }

  /** A PATHS value the reader takes back whole: two lines joined by "\n". */
  predicate PathsValue(v: string) {
    |SplitLines(v)| == 2 && JoinLines(SplitLines(v)) == v
  }

  /** An OVERLAPS value the reader takes back whole: a count line that int() reads as n, then n lines, joined by "\n". */
  predicate OverlapsValue(v: string) {
    var ls := SplitLines(v);
    ls != [] && JoinLines(ls) == v && ParseInt(ls[0]) == Some(|ls| - 1)
  }

  /**
    A parameter that Section.__str__ writes so that Section.fromText reads it
    back unchanged: its name is already in written form, on one line and not
    numeric; its value, when set, has no surrounding whitespace and is two lines
    under PATHS, a count and that many lines under OVERLAPS, and otherwise one
    line that is blank or numeric.
   */
  predicate Plain(p: Entry<Option<string>>) {
    && CanonName(p.key) == p.key && NoLineBreak(p.key) && !ChkNumeric(p.key)
    && (p.val.Some? ==> Strip(p.val.value) == p.val.value)
    && (p.val.Some? ==>
          if p.key == "PATHS" then PathsValue(p.val.value)
          else if p.key == "OVERLAPS" then OverlapsValue(p.val.value)
          else NoLineBreak(p.val.value) && (p.val.value == "" || ChkNumeric(p.val.value)))
  }

  /** The last parameter written has a value line (a flag written last is dropped when read). */
  predicate EndsWithValue(ps: Params) {
    var s := SetOnly(ps);
    s == [] || s[|s| - 1].val.value != ""
  }

  /** A value written on its own lines ends with a line break where the rows it splits into each end with one. */
  lemma ValueRowsText(v: string)
    requires v != "" && (NoLineBreak(v) || JoinLines(SplitLines(v)) == v)
    ensures Terminated(SplitLines(v)) == v + "\n"
  {
    if NoLineBreak(v) {
      SplitOneLine(v);
      TerminatedTwo(v, v);
    } else {
      JoinThenTerminate(SplitLines(v));
    }
  }

  /** One plain parameter's text is the text of its rows. */
  lemma ParamRowsText(p: Entry<Option<string>>)
    requires Plain(p)
    ensures Terminated(ParamLines(p)) == Terminated(ParamRows(p))
    ensures forall l | l in ParamRows(p) :: NoLineBreak(l)
  {
    if p.val.Some? {
      var k, v := p.key, p.val.value;
      assert CanonName(k) == k && Strip(v) == v;
      assert ParamLines(p) == NamedLines(k, Some(v));
      assert ParamRows(p) == NameRows(k, v);
      if v == "" {
        assert ParamRows(p) == [k] + [];
      } else {
        ValueRowsText(v);
        TerminatedAppend([k], SplitLines(v));
        TerminatedTwo(k, v);
      }
    }
  }

  /** The written section is its rows, each ended by "\n". */
  lemma {:induction false} RenderRows(ps: Params)
    requires forall p | p in ps :: Plain(p)
    ensures Render(ps) == Terminated(WrittenRows(ps))
    ensures forall l | l in WrittenRows(ps) :: NoLineBreak(l)
  {
    if ps != [] {
      var p, rest := ps[0], ps[1..];
      assert p in ps;
      assert forall q | q in rest :: q in ps;
      ParamRowsText(p);
      RenderRows(rest);
      TerminatedAppend(ParamLines(p), RenderLines(rest));
      TerminatedAppend(ParamRows(p), WrittenRows(rest));
      PlainAppend(ParamRows(p), WrittenRows(rest));
    }
  }

  lemma {:induction false} FirstRendered(ps: Params)
    ensures WrittenRows(ps) == [] <==> SetOnly(ps) == []
    ensures SetOnly(ps) != [] ==> WrittenRows(ps)[0] == CanonName(SetOnly(ps)[0].key)
  {
    if ps != [] {
      FirstRendered(ps[1..]);
    }
  }

  lemma PathsNotNumeric()
    ensures !ChkNumeric("PATHS") && !ChkNumeric("OVERLAPS")
  {
    NameNotNumeric("PATHS");
    NameNotNumeric("OVERLAPS");
  }

  lemma NameNotNumeric(name: string)
    requires name == "PATHS" || name == "OVERLAPS"
    ensures !ChkNumeric(name)
  {
    assert name[0] == 'P' || name[0] == 'O';
    LeadingLetterNotNumeric(name);
  }

  /** A pass that succeeds hands its cursor and parameters on to the rest of the scan. */
  lemma ScanThrough(lines: seq<string>, i: nat, acc: Params, acc': Params, next: nat)
    requires Distinct(Keys(acc)) && i + 1 < |lines|
    requires Advanced(acc, ScanStep(lines, i)) == Ok((acc', next))
    ensures Distinct(Keys(acc')) && Scan(lines, i, acc) == Scan(lines, next, acc')
  {
    ScanAdvance(lines, i, acc);
  }

  lemma Lengths(pre: seq<string>, k: string, v: string)
    ensures |pre + [k]| == |pre| + 1
    ensures |pre + [k, v]| == |pre| + 1 + 1
  {
  }

  /** A written flag followed by a name line is read back as a flag. */
  lemma FlagRendered(pre: seq<string>, k: string, rest: seq<string>, acc: Params, rows: seq<string>)
    requires rows == [k] && Distinct(Keys(acc)) && k !in Keys(acc)
    requires !ChkNumeric(k) && k != "PATHS" && k != "OVERLAPS"
    requires rest != [] && !ChkNumeric(rest[0])
    ensures Distinct(Keys(acc + [Entry(k, Some(""))]))
    ensures Scan(pre + (rows + rest), |pre|, acc) == Scan((pre + rows) + rest, |pre + rows|, acc + [Entry(k, Some(""))])
  {
    var lines := pre + ([k] + rest);
    var acc' := acc + [Entry(k, Some(""))];
    Regroup(pre, [k], rest);
    Lengths(pre, k, k);
    assert lines[|pre|] == k && lines[|pre| + 1] == rest[0];
    PutFresh(acc, k, Some(""));
    PassFlag(lines, |pre|, acc, acc');
    ScanThrough(lines, |pre|, acc, acc', |pre| + 1);
  }

  /** A written name and numeric value, followed by nothing or a name line, are read back as that parameter. */
  lemma ValueRendered(pre: seq<string>, k: string, v: string, rest: seq<string>, acc: Params, rows: seq<string>)
    requires rows == [k, v] && Distinct(Keys(acc)) && k !in Keys(acc)
    requires k != "PATHS" && k != "OVERLAPS" && ChkNumeric(v)
    requires rest != [] ==> !ChkNumeric(rest[0])
    ensures Distinct(Keys(acc + [Entry(k, Some(v))]))
    ensures Scan(pre + (rows + rest), |pre|, acc) == Scan((pre + rows) + rest, |pre + rows|, acc + [Entry(k, Some(v))])
  {
    var lines := pre + ([k, v] + rest);
    var acc' := acc + [Entry(k, Some(v))];
    Regroup(pre, [k, v], rest);
    Lengths(pre, k, v);
    assert lines[|pre|] == k && lines[|pre| + 1] == v;
    PutFresh(acc, k, Some(v));
    PassValue(lines, |pre|, acc, acc');
    ScanThrough(lines, |pre|, acc, acc', |pre| + 1);
    if rest != [] {
      assert lines[|pre| + 1 + 1] == rest[0];
      PathsNotNumeric();
      PassSkip(lines, |pre| + 1, acc');
      ScanThrough(lines, |pre| + 1, acc', acc', |pre| + 1 + 1);
    } else {
      assert |lines| == |pre| + 1 + 1;
      assert Scan(lines, |pre| + 1, acc') == Ok(acc');
      assert Scan(lines, |pre| + 1 + 1, acc') == Ok(acc');
    }
  }

  /** A written PATHS block, whatever follows it, is read back as its two lines joined. */
  lemma PathsRendered(pre: seq<string>, v: string, rest: seq<string>, acc: Params, rows: seq<string>)
    requires rows == ["PATHS"] + SplitLines(v) && Distinct(Keys(acc)) && "PATHS" !in Keys(acc) && PathsValue(v)
    ensures Distinct(Keys(acc + [Entry("PATHS", Some(v))]))
    ensures Scan(pre + (rows + rest), |pre|, acc) == Scan((pre + rows) + rest, |pre + rows|, acc + [Entry("PATHS", Some(v))])
  {
    var ls := SplitLines(v);
    var lines := pre + (rows + rest);
    var i := |pre|;
    var acc' := acc + [Entry("PATHS", Some(v))];
    Regroup(pre, rows, rest);
    assert lines[i] == "PATHS";
    assert lines[i + 1..Min(i + 3, |lines|)] == ls;
    PutFresh(acc, "PATHS", Some(v));
    PassPaths(lines, i, acc, acc', i + 2);
    ScanThrough(lines, i, acc, acc', i + 3);
  }

  /** A written OVERLAPS block, whatever follows it, is read back as its count line and lines joined. */
  lemma OverlapsRendered(pre: seq<string>, v: string, rest: seq<string>, acc: Params, rows: seq<string>)
    requires rows == ["OVERLAPS"] + SplitLines(v) && Distinct(Keys(acc)) && "OVERLAPS" !in Keys(acc) && OverlapsValue(v)
    ensures Distinct(Keys(acc + [Entry("OVERLAPS", Some(v))]))
    ensures Scan(pre + (rows + rest), |pre|, acc) == Scan((pre + rows) + rest, |pre + rows|, acc + [Entry("OVERLAPS", Some(v))])
  {
    var ls := SplitLines(v);
    var lines := pre + (rows + rest);
    var i := |pre|;
    var acc' := acc + [Entry("OVERLAPS", Some(v))];
    Regroup(pre, rows, rest);
    assert lines[i] == "OVERLAPS";
    var j := i + 1 + |ls|;
    assert lines[i + 1..j] == ls;
    var st := OverlapsAt(lines, i, j, v);
    PutFresh(acc, "OVERLAPS", Some(v));
    ScanVia(lines, i, acc, st, acc');
    assert |rows| == 1 + |ls|;
    assert st.next == |pre + rows|;
  }

  /** The pass on a written OVERLAPS block takes exactly its count line and the lines it counts. */
  lemma OverlapsAt(lines: seq<string>, i: nat, j: nat, v: string) returns (st: Step)
    requires OverlapsValue(v) && j == i + 1 + |SplitLines(v)| && j <= |lines| && lines[i] == "OVERLAPS"
    requires lines[i + 1..j] == SplitLines(v)
    ensures st == Step(Some(Entry("OVERLAPS", v)), j)
    ensures ScanStep(lines, i) == Ok(st)
  {
    var ls := SplitLines(v);
    assert ls != [] && JoinLines(ls) == v && ParseInt(ls[0]) == Some(|ls| - 1);
    CountLineAt(lines, i, j, ls);
    OverlapsFits(lines, i, |ls| - 1, j, ls, v);
    st := Step(Some(Entry("OVERLAPS", v)), j);
  }

  /** The first of the lines from i + 1 is the count line. */
  lemma CountLineAt(lines: seq<string>, i: nat, j: nat, ls: seq<string>)
    requires ls != [] && i + 1 < j <= |lines| && lines[i + 1..j] == ls && ParseInt(ls[0]) == Some(|ls| - 1)
    ensures ParseInt(lines[i + 1]) == Some(|ls| - 1)
  {
    assert lines[i + 1] == ls[0];
  }

  /** The OVERLAPS pass when all the lines it counts are there. */
  lemma OverlapsFits(lines: seq<string>, i: nat, n: int, j: nat, seg: seq<string>, v: string)
    requires i + 1 < |lines| && lines[i] == "OVERLAPS"
    requires ParseInt(lines[i + 1]) == Some(n) && n >= -1 && j == i + n + 2 && i + 1 <= j <= |lines|
    requires seg == lines[i + 1..j] && JoinLines(seg) == v
    ensures ScanStep(lines, i) == Ok(Step(Some(Entry("OVERLAPS", v)), j))
  {
    OverlapsStep(lines, i, n);
    assert Min(i + n + 2, |lines|) == j;
  }

  /** A pass that yields st hands its cursor and its parameter on to the rest of the scan. */
  lemma ScanVia(lines: seq<string>, i: nat, acc: Params, st: Step, acc': Params)
    requires Distinct(Keys(acc)) && i + 1 < |lines| && ScanStep(lines, i) == Ok(st) && acc' == Apply(acc, st.param)
    ensures Distinct(Keys(acc')) && Scan(lines, i, acc) == Scan(lines, st.next, acc')
  {
    ScanAdvance(lines, i, acc);
  }

  /** A set plain parameter, followed by the rows of the parameters after it, is read back as itself. */
  lemma ReadParam(pre: seq<string>, p: Entry<Option<string>>, rest: seq<string>, acc: Params)
    requires Plain(p) && p.val.Some? && Distinct(Keys(acc)) && p.key !in Keys(acc)
    requires rest != [] ==> !ChkNumeric(rest[0])
    requires p.val.value == "" ==> rest != []
    ensures Distinct(Keys(acc + [p]))
    ensures Scan(pre + (ParamRows(p) + rest), |pre|, acc) == Scan((pre + ParamRows(p)) + rest, |pre + ParamRows(p)|, acc + [p])
  {
    var k, v := p.key, p.val.value;
    assert ParamRows(p) == NameRows(k, v);
    assert p == Entry(k, Some(v));
    ReadNamed(pre, k, v, rest, acc, ParamRows(p));
  }

  /** The same, for the name and value as written. */
  lemma ReadNamed(pre: seq<string>, k: string, v: string, rest: seq<string>, acc: Params, rows: seq<string>)
    requires rows == NameRows(k, v) && Distinct(Keys(acc)) && k !in Keys(acc) && !ChkNumeric(k)
    requires k == "PATHS" ==> PathsValue(v)
    requires k == "OVERLAPS" ==> OverlapsValue(v)
    requires k != "PATHS" && k != "OVERLAPS" ==> NoLineBreak(v) && (v == "" || ChkNumeric(v))
    requires rest != [] ==> !ChkNumeric(rest[0])
    requires v == "" ==> rest != []
    ensures Distinct(Keys(acc + [Entry(k, Some(v))]))
    ensures Scan(pre + (rows + rest), |pre|, acc) == Scan((pre + rows) + rest, |pre + rows|, acc + [Entry(k, Some(v))])
  {
    if k == "PATHS" {
      PathsRendered(pre, v, rest, acc, rows);
    } else if k == "OVERLAPS" {
      OverlapsRendered(pre, v, rest, acc, rows);
    } else if v == "" {
      assert rows == [k] + [];
      FlagRendered(pre, k, rest, acc, rows);
    } else {
      SplitOneLine(v);
      assert rows == [k, v];
      ValueRendered(pre, k, v, rest, acc, rows);
    }
  }

  /** The keys of the parameters after the first keep the first's properties. */
  lemma RestKeys(ps: Params, acc: Params)
    requires ps != [] && Distinct(Keys(ps))
    requires forall k | k in Keys(ps) :: k !in Keys(acc)
    ensures ps[0].key !in Keys(ps[1..]) && ps[0].key !in Keys(acc)
    ensures Distinct(Keys(ps[1..]))
    ensures forall k | k in Keys(ps[1..]) :: k !in Keys(acc) && k !in Keys(acc + [ps[0]])
  {
    var rest := ps[1..];
    assert Keys(ps) == [ps[0].key] + Keys(rest);
    assert Distinct(Keys(rest)) by {
      forall a, b | 0 <= a < b < |rest| ensures Keys(rest)[a] != Keys(rest)[b] {
        assert Keys(ps)[a + 1] != Keys(ps)[b + 1];
      }
    }
    KeysAppend(acc, [ps[0]]);
  }

  /** The first row the remaining parameters write, when they write any, is a name that is not numeric. */
  lemma {:induction false} NextName(rest: Params)
    requires AllPlain(rest)
    ensures WrittenRows(rest) != [] <==> SetOnly(rest) != []
    ensures WrittenRows(rest) != [] ==> !ChkNumeric(WrittenRows(rest)[0])
  {
    FirstRendered(rest);
    if rest != [] {
      if rest[0].val.None? {
        NextName(rest[1..]);
        assert WrittenRows(rest) == WrittenRows(rest[1..]);
      } else {
        assert SetOnly(rest)[0] == rest[0];
      }
    }
  }

  /** Every parameter is plain, stated one parameter at a time. */
  predicate AllPlain(ps: Params) {
    ps == [] || (Plain(ps[0]) && AllPlain(ps[1..]))
  }

  lemma {:induction false} AllPlainFrom(ps: Params)
    requires forall p | p in ps :: Plain(p)
    ensures AllPlain(ps)
  {
    if ps != [] {
      assert ps[0] in ps;
      assert forall q | q in ps[1..] :: q in ps;
      AllPlainFrom(ps[1..]);
    }
  }

  /** The parameters after the first still end with a value. */
  lemma EndsAfter(ps: Params)
    requires ps != [] && EndsWithValue(ps)
    ensures EndsWithValue(ps[1..])
  {
    var s, t := SetOnly(ps), SetOnly(ps[1..]);
    if ps[0].val.Some? {
      assert s == [ps[0]] + t;
      if t != [] { assert s[|s| - 1] == t[|t| - 1]; }
    }
  }

  /** What the scanner needs of the parameters still to be read, and of those read so far. */
  predicate ReadableAfter(ps: Params, acc: Params) {
    && Distinct(Keys(acc)) && Distinct(Keys(ps))
    && AllPlain(ps)
    && EndsWithValue(ps)
    && (forall k | k in Keys(ps) :: k !in Keys(acc))
  }

  /**
    The scanner reads the first parameter's rows and stands at the next one's,
    having added the first parameter if it is set.
   */
  lemma FirstRead(pre: seq<string>, ps: Params, acc: Params) returns (pre': seq<string>, acc': Params)
    requires ps != [] && ReadableAfter(ps, acc)
    ensures ReadableAfter(ps[1..], acc')
    ensures Scan(pre + WrittenRows(ps), |pre|, acc) == Scan(pre' + WrittenRows(ps[1..]), |pre'|, acc')
    ensures acc + SetOnly(ps) == acc' + SetOnly(ps[1..])
  {
    var p, rest := ps[0], ps[1..];
    RestKeys(ps, acc);
    NextName(rest);
    var r := WrittenRows(rest);
    EndsAfter(ps);
    if p.val.None? {
      pre', acc' := pre, acc;
      assert SetOnly(ps) == SetOnly(rest);
      assert WrittenRows(ps) == r;
    } else {
      acc' := acc + [p];
      pre' := pre + ParamRows(p);
      assert SetOnly(ps) == [p] + SetOnly(rest);
      ReadParam(pre, p, r, acc);
      Regroup(acc, [p], SetOnly(rest));
    }
  }

  /** The scanner, started on the written rows of ps after any rows pre, adds exactly ps's set parameters. */
  lemma {:induction false} ScanRendered(pre: seq<string>, ps: Params, acc: Params)
    requires ReadableAfter(ps, acc)
    ensures Scan(pre + WrittenRows(ps), |pre|, acc) == Ok(acc + SetOnly(ps))
    decreases |ps|
  {
    if ps == [] {
      assert pre + WrittenRows(ps) == pre;
      assert acc + SetOnly(ps) == acc;
    } else {
      var pre', acc' := FirstRead(pre, ps, acc);
      ScanRendered(pre', ps[1..], acc');
    }
  }

  /**
    Reading back what Section.__str__ writes gives the section's set parameters,
    in order, for plain parameters (PATHS and OVERLAPS blocks included) with
    unique names whose last written one has a value.
   */
  lemma RoundTrip(ps: Params)
    requires Distinct(Keys(ps))
    requires forall p | p in ps :: Plain(p)
    requires EndsWithValue(ps)
    ensures Parse(Render(ps)) == Ok(SetOnly(ps))
  {
    ScanWritten(ps);
    SplitWritten(ps);
  }

  /** Two lines without surrounding whitespace make a plain PATHS parameter, which RoundTrip covers. */
  lemma PathsPlain(a: string, b: string)
    requires a != [] && b != [] && NoLineBreak(a) && NoLineBreak(b) && !IsSpace(a[0]) && !IsSpace(b[|b| - 1])
    ensures Plain(Entry("PATHS", Some(a + "\n" + b)))
  {
    var v := a + "\n" + b;
    assert CanonName("PATHS") == "PATHS" && NoLineBreak("PATHS") by { CapitalName("PATHS"); }
    assert !ChkNumeric("PATHS") by { PathsNotNumeric(); }
    assert Strip(v) == v by {
      assert v[0] == a[0] && v[|v| - 1] == b[|b| - 1];
      StripUnpadded(v);
    }
    assert PathsValue(v) by { TwoLines(a, b); }
  }

  /** The count of the rows, then the rows, make a plain OVERLAPS parameter, which RoundTrip covers. */
  lemma OverlapsPlain(rows: seq<string>)
    requires forall r | r in rows :: NoLineBreak(r)
    requires rows != [] ==> rows[|rows| - 1] != [] && !IsSpace(rows[|rows| - 1][|rows[|rows| - 1]| - 1])
    ensures Plain(Entry("OVERLAPS", Some(JoinLines([Decimal(|rows|)] + rows))))
  {
    assert CanonName("OVERLAPS") == "OVERLAPS" && NoLineBreak("OVERLAPS") by { CapitalName("OVERLAPS"); }
    assert !ChkNumeric("OVERLAPS") by { PathsNotNumeric(); }
    OverlapsLines(rows);
    OverlapsUnpadded(rows);
  }

  /** The count line and the rows are split back apart, and the count line reads as their number. */
  lemma OverlapsLines(rows: seq<string>)
    requires forall r | r in rows :: NoLineBreak(r)
    requires rows != [] ==> rows[|rows| - 1] != []
    ensures OverlapsValue(JoinLines([Decimal(|rows|)] + rows))
  {
    var d := Decimal(|rows|);
    DecimalPlain(|rows|);
    ParseDecimal("", |rows|);
    assert [] + d == d;
    CountedLines(d, rows);
  }

  /** A count line that int() reads as the number of the rows after it makes an OVERLAPS value. */
  lemma CountedLines(d: string, rows: seq<string>)
    requires d != [] && NoLineBreak(d) && ParseInt(d) == Some(|rows|)
    requires forall r | r in rows :: NoLineBreak(r)
    requires rows != [] ==> rows[|rows| - 1] != []
    ensures OverlapsValue(JoinLines([d] + rows))
  {
    var ls := [d] + rows;
    assert ls[|ls| - 1] != [] by {
      if rows != [] {
        assert ls[|ls| - 1] == rows[|rows| - 1];
      }
    }
    assert forall l | l in ls :: NoLineBreak(l);
    SplitJoined(ls);
    assert ls[0] == d;
  }

  /** The count line starts with a digit and the last row ends without whitespace, so strip() keeps the value. */
  lemma OverlapsUnpadded(rows: seq<string>)
    requires rows != [] ==> rows[|rows| - 1] != [] && !IsSpace(rows[|rows| - 1][|rows[|rows| - 1]| - 1])
    ensures var v := JoinLines([Decimal(|rows|)] + rows); Strip(v) == v
  {
    var d := Decimal(|rows|);
    var ls := [d] + rows;
    assert !IsSpace(d[0]) && !IsSpace(d[|d| - 1]) by {
      DigitNotSpace(d[0]);
      DigitNotSpace(d[|d| - 1]);
    }
    assert ls[|ls| - 1] == if rows == [] then d else rows[|rows| - 1];
    JoinUnpadded(ls);
  }

  /** A digit is not whitespace. */
  lemma DigitNotSpace(c: char)
    requires IsDigit(c)
    ensures !IsSpace(c)
  {
  }

  /** Lines that start and end without whitespace join to a text that strip() leaves alone. */
  lemma JoinUnpadded(ls: seq<string>)
    requires ls != [] && ls[0] != [] && !IsSpace(ls[0][0])
    requires ls[|ls| - 1] != [] && !IsSpace(ls[|ls| - 1][|ls[|ls| - 1]| - 1])
    ensures Strip(JoinLines(ls)) == JoinLines(ls)
  {
    JoinFirst(ls);
    JoinLast(ls);
    StripUnpadded(JoinLines(ls));
  }

  /** "\n".join starts with the first line's first character. */
  lemma JoinFirst(ls: seq<string>)
    requires ls != [] && ls[0] != []
    ensures JoinLines(ls) != [] && JoinLines(ls)[0] == ls[0][0]
  {
  }

  /** "\n".join ends with the last line's last character. */
  lemma {:induction false} JoinLast(ls: seq<string>)
    requires ls != [] && ls[|ls| - 1] != []
    ensures JoinLines(ls) != [] && JoinLines(ls)[|JoinLines(ls)| - 1] == ls[|ls| - 1][|ls[|ls| - 1]| - 1]
  {
    if |ls| > 1 {
      JoinLast(ls[1..]);
    }
  }

  /** A name of capital letters is its own written form. */
  lemma CapitalName(name: string)
    requires forall i | 0 <= i < |name| :: 'A' <= name[i] <= 'Z'
    ensures CanonName(name) == name && NoLineBreak(name)
  {
    ContainsChar(name, '_');
    ReplaceAbsent(name, "_", "-");
    assert NoDoubleDash(name);
    NoDoubleDashNotContains(name);
    ReplaceAbsent(name, "--", " ");
    assert Upper(name) == name;
  }

  /** Two lines without line breaks, joined by "\n", split back into those two lines. */
  lemma TwoLines(a: string, b: string)
    requires a != [] && b != [] && NoLineBreak(a) && NoLineBreak(b)
    ensures SplitLines(a + "\n" + b) == [a, b] && JoinLines([a, b]) == a + "\n" + b
  {
    assert JoinLines([a, b]) == a + "\n" + JoinLines([b]);
    SplitJoined([a, b]);
  }

  /** The scanner reads the written rows back as the set parameters. */
  lemma ScanWritten(ps: Params)
    requires Distinct(Keys(ps))
    requires forall p | p in ps :: Plain(p)
    requires EndsWithValue(ps)
    ensures Scan(WrittenRows(ps), 0, []) == Ok(SetOnly(ps))
  {
    AllPlainFrom(ps);
    assert ReadableAfter(ps, []);
    ScanRendered([], ps, []);
    ScanEmptyPrefix(WrittenRows(ps));
    EmptyConcat(SetOnly(ps));
  }

  lemma ScanEmptyPrefix(lines: seq<string>)
    ensures Scan([] + lines, 0, []) == Scan(lines, 0, [])
  {
    assert [] + lines == lines;
  }

  lemma EmptyConcat<T>(s: seq<T>)
    ensures [] + s == s
  {
  }

  /** Splitting the written text gives back each parameter's name, then its value's lines. */
  lemma SplitWritten(ps: Params)
    requires forall p | p in ps :: Plain(p)
    ensures SplitLines(Render(ps)) == WrittenRows(ps)
  {
    RenderRows(ps);
    SplitTerminated(WrittenRows(ps));
  }

  /** A flag written last is not read back: the scanner never takes the last line as a name. */
  lemma TrailingFlagDropped(name: string)
    requires NoLineBreak(name)
    ensures Parse(Terminated([name])) == Ok([])
  {
    SplitTerminated([name]);
  }
}
