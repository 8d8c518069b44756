/**
  A whole CPMD script (class Input in pygmx/scripts/cpmd.py): an attribute
  bag kept in insertion order, holding one Section per block, the INFO text
  and the ordered map of atoms. Input.__str__ writes it out, INFO first and
  ATOMS last; Input.fromText fills a fresh one from the blocks of a script.
 */
module Inputs {
  import opened Outcomes
  import opened PyStr
  import opened OrderedMaps
  import opened Sections
  import opened Atoms

  /** The value of one attribute. */
  datatype Field =
    | Unset                                   // None
    | Text(text: string)                      // a str, such as the INFO text
    | Sec(params: Params)                     // a Section
    | AtomMap(atoms: seq<Entry<AtomRecord>>)  // the OrderedDict of atoms, keyed by element

  /** The attributes in the order params() lists them. */
  type Doc = seq<Entry<Field>>

  /** The line the writer appends to the INFO text and the reader deletes again. */
  const Marker := "GENERATED BY MIMICPY"

  // ------------------------------------------------------------ Input(*names)

  /** The Sections setattr'd for the constructor's names, in order. */
  function Blank(names: seq<string>): Doc
    decreases |names|
  {
    if names == [] then [] else Put(Blank(names[..|names| - 1]), names[|names| - 1], Sec([]))
  }

  lemma BlankNext(names: seq<string>, k: nat)
    requires k < |names|
    ensures Blank(names[..k + 1]) == Put(Blank(names[..k]), names[k], Sec([]))
  {
    var pre := names[..k + 1];
    assert pre[..|pre| - 1] == names[..k];
    assert pre[|pre| - 1] == names[k];
  }

  /** Input(*names): an empty Section per name, then atoms, info and _ndx. */
  function Initial(names: seq<string>): Doc {
    Put(Put(Put(Blank(names), "atoms", AtomMap([])), "info", Text("MiMiC Run")), "_ndx", Unset)
  }

  /** The attributes every Input gets after its Sections. */
  const Extras: Doc := [Entry("atoms", AtomMap([])), Entry("info", Text("MiMiC Run")), Entry("_ndx", Unset)]

  lemma ExtrasKeys()
    ensures Keys(Extras) == ["atoms", "info", "_ndx"]
  {
    assert Keys(Extras[2..]) == ["_ndx"];
  }

  /** The three attributes of every Input come after the Sections named. */
  lemma InitialEntries(names: seq<string>)
    requires "atoms" !in Keys(Blank(names)) && "info" !in Keys(Blank(names)) && "_ndx" !in Keys(Blank(names))
    ensures Initial(names) == Blank(names) + Extras
  {
    var a, i, n := Extras[0], Extras[1], Extras[2];
    var b := Blank(names);
    var b1 := b + [a];
    var b2 := b1 + [i];
    PutFresh(b, "atoms", AtomMap([]));
    KeysAppend(b, [a]);
    PutFresh(b1, "info", Text("MiMiC Run"));
    KeysAppend(b1, [i]);
    PutFresh(b2, "_ndx", Unset);
    AppendThree(b, a, i, n);
  }

  /** With no clashing names, a new Input lists its Sections, then atoms, info and _ndx. */
  lemma InitialLayout(names: seq<string>)
    requires Distinct(names) && "atoms" !in names && "info" !in names && "_ndx" !in names
    ensures Keys(Initial(names)) == names + ["atoms", "info", "_ndx"]
  {
    ExtrasKeys();
    BlankKeys(names);
    InitialEntries(names);
    KeysAppend(Blank(names), Extras);
  }

  lemma AppendThree<T>(s: seq<T>, x: T, y: T, z: T)
    ensures s + [x] + [y] + [z] == s + [x, y, z]
  {
  }

  lemma {:induction false} BlankKeys(names: seq<string>)
    requires Distinct(names)
    ensures Keys(Blank(names)) == names
    decreases |names|
  {
    if names != [] {
      var pre, last := names[..|names| - 1], names[|names| - 1];
      DistinctInit(names);
      BlankKeys(pre);
      assert Blank(names) == Put(Blank(pre), last, Sec([]));
    }
  }

  // ------------------------------------------------------------ writing

  /** The INFO block: the text, then the marker line. */
  function InfoBlock(t: string): string {
    "\n&INFO\n" + t + "\n" + Marker + "\n&END\n"
  }

  /** The block of any other attribute, named by its upper-cased name. */
  function SectionBlock(name: string, t: string): string {
    "\n&" + Upper(name) + "\n" + t + "&END\n"
  }

  /** The ATOMS block around the atoms' texts. */
  function AtomsBlock(t: string): string {
    "\n&ATOMS\n" + t + "&END\n"
  }

  /** str() of an attribute inside a block: a str as it is, a Section as Section.__str__ writes it. */
  function FieldText(name: string, f: Field): Result<string> {
    match f
    case Text(t) => Ok(t)
    case Sec(ps) => Ok(Render(ps))
    case _ => Err(Unprintable(name))
  }

  /** An atom's key with every '*' removed: link atoms such as C* are written as C. */
  function Bare(key: string): string {
    ReplaceAll(key, "*", "")
  }

  /** One atom in the ATOMS block: '*', the bare key, then Atom.__str__. */
  function AtomEntryText(e: Entry<AtomRecord>): Result<string> {
    match RenderAtom(e.val)
    case Err(x) => Err(x)
    case Ok(t) => Ok("*" + Bare(e.key) + t)
  }

  /** The loop over the atoms: their texts in map order, or the first failure. */
  function AtomsBody(m: seq<Entry<AtomRecord>>): Result<string>
    decreases |m|
  {
    if m == [] then Ok("")
    else
      match AtomsBody(m[..|m| - 1])
      case Err(x) => Err(x)
      case Ok(pre) =>
        match AtomEntryText(m[|m| - 1])
        case Err(x) => Err(x)
        case Ok(t) => Ok(pre + t)
  }

  /** The atoms as that loop leaves them: each atom it reached normalised by Atom.__str__. */
  function Touched(m: seq<Entry<AtomRecord>>): (r: seq<Entry<AtomRecord>>)
    ensures |r| == |m| && forall k | 0 <= k < |m| :: r[k].key == m[k].key
    decreases |m|
  {
    if m == [] then []
    else
      var pre := m[..|m| - 1];
      var last := m[|m| - 1];
      Touched(pre) + [if AtomsBody(pre).Ok? then Entry(last.key, Normalized(last.val)) else last]
  }

  /** Where the writer has got to: the INFO block, the other blocks so far, the ATOMS block. */
  datatype Parts = Parts(info: Option<string>, body: string, atoms: Option<string>)

  /** One iteration of the loop of Input.__str__, dispatching on the upper-cased name. */
  function Visit(p: Parts, e: Entry<Field>): Result<Parts> {
    var d := Upper(e.key);
    if e.val.Unset? then Ok(p)
    else if d == "INFO" then
      match FieldText(e.key, e.val)
      case Err(x) => Err(x)
      case Ok(t) => Ok(p.(info := Some(InfoBlock(t))))
    else if d == "ATOMS" then
      if !e.val.AtomMap? then Err(Unprintable(e.key))
      else
        match AtomsBody(e.val.atoms)
        case Err(x) => Err(x)
        case Ok(t) => Ok(p.(atoms := Some(AtomsBlock(t))))
    else
      match FieldText(e.key, e.val)
      case Err(x) => Err(x)
      case Ok(t) => Ok(p.(body := p.body + SectionBlock(e.key, t)))
  }

  /** An attribute as that iteration leaves it: an atom map under ATOMS has its atoms normalised. */
  function TouchEntry(e: Entry<Field>): Entry<Field> {
    if Upper(e.key) == "ATOMS" && e.val.AtomMap? then Entry(e.key, AtomMap(Touched(e.val.atoms))) else e
  }

  /** The loop of Input.__str__ over the attributes, up to the first failure. */
  function Gather(ps: Doc): Result<Parts>
    decreases |ps|
  {
    if ps == [] then Ok(Parts(None, "", None))
    else
      match Gather(ps[..|ps| - 1])
      case Err(x) => Err(x)
      case Ok(p) => Visit(p, ps[|ps| - 1])
  }

  /** The attributes after that loop: every one it reached passed through TouchEntry. */
  function After(ps: Doc): (r: Doc)
    ensures |r| == |ps| && forall k | 0 <= k < |ps| :: r[k].key == ps[k].key
    decreases |ps|
  {
    if ps == [] then []
    else
      var pre := ps[..|ps| - 1];
      After(pre) + [if Gather(pre).Ok? then TouchEntry(ps[|ps| - 1]) else ps[|ps| - 1]]
  }

  /** Input.__str__ as a value: info + val + atoms, where reading an unbound local fails, info first. */
  function RenderDoc(ps: Doc): Result<string> {
    match Gather(ps)
    case Err(x) => Err(x)
    case Ok(p) =>
      if p.info.None? then Err(Unbound("info"))
      else if p.atoms.None? then Err(Unbound("atoms"))
      else Ok(p.info.value + p.body + p.atoms.value)
  }

  /** Writing atom j extends the text, or ends the loop with its failure. */
  lemma AtomsStep(m: seq<Entry<AtomRecord>>, j: nat, text: string, t: Result<string>)
    requires j < |m| && AtomsBody(m[..j]) == Ok(text) && t == RenderAtom(m[j].val)
    ensures t.Ok? ==> AtomsBody(m[..j + 1]) == Ok(text + ("*" + ReplaceAll(m[j].key, "*", "") + t.value))
    ensures t.Err? ==> AtomsBody(m[..j + 1]) == Err(t.error)
  {
    assert m[..j + 1][..j] == m[..j];
  }

  /** Either way atom j is normalised in place. */
  lemma TouchedStep(m: seq<Entry<AtomRecord>>, j: nat)
    requires j < |m| && AtomsBody(m[..j]).Ok?
    ensures (Touched(m[..j]) + m[j..])[j := Entry(m[j].key, Normalized(m[j].val))] == Touched(m[..j + 1]) + m[j + 1..]
  {
    var x := Entry(m[j].key, Normalized(m[j].val));
    assert m[..j + 1][..j] == m[..j];
    assert Touched(m[..j + 1]) == Touched(m[..j]) + [x];
    SetAtSeam(Touched(m[..j]), m, j, x);
  }

  /** Once an atom has failed, the loop is over: the result is that failure and the later atoms are untouched. */
  lemma {:induction false} AtomsStuck(m: seq<Entry<AtomRecord>>, j: nat)
    requires j <= |m| && AtomsBody(m[..j]).Err?
    ensures AtomsBody(m) == AtomsBody(m[..j])
    ensures Touched(m) == Touched(m[..j]) + m[j..]
    decreases |m|
  {
    if j == |m| {
      assert m[..j] == m;
    } else {
      var pre := m[..|m| - 1];
      assert pre[..j] == m[..j];
      AtomsStuck(pre, j);
      SuffixOfInit(m, j);
    }
  }

  /** The ATOMS branch of Input.__str__: each atom written by Atom.__str__, which normalises it in place. */
  method WriteAtoms(m: seq<Entry<AtomRecord>>) returns (r: Result<string>, m': seq<Entry<AtomRecord>>)
    ensures r == AtomsBody(m) && m' == Touched(m)
  {
    var text := "";
    m' := m;
    assert m[..0] == [] && m[0..] == m;
    for j := 0 to |m|
      invariant AtomsBody(m[..j]) == Ok(text)
      invariant m' == Touched(m[..j]) + m[j..]
    {
      var e := m[j];
      var atom := new Atom(e.val.coords, e.val.lmax, e.val.pp, e.val.labels);
      var t := atom.ToText();
      AtomsStep(m, j, text, t);
      TouchedStep(m, j);
      m' := m'[j := Entry(e.key, atom.Model())];
      if t.Err? {
        AtomsStuck(m, j + 1);
        return Err(t.error), m';
      }
      text := text + ("*" + ReplaceAll(e.key, "*", "") + t.value);
    }
    assert m[..|m|] == m;
    r := Ok(text);
  }

  /** str() of an attribute: this only routes a Section to the loop method Sections.ToText; the rest is FieldText. */
  method WriteField(name: string, f: Field) returns (r: Result<string>)
    ensures r == FieldText(name, f)
  {
    match f
    case Text(t) => r := Ok(t);
    case Sec(ps) =>
      var t := Sections.ToText(ps);
      r := Ok(t);
    case _ => r := Err(Unprintable(name));
  }

  /** One iteration of Input.__str__, with the attribute as it leaves it. */
  method VisitEntry(p: Parts, e: Entry<Field>) returns (r: Result<Parts>, e': Entry<Field>)
    ensures r == Visit(p, e) && e' == TouchEntry(e)
  {
    e' := e;
    var d := Upper(e.key);
    if e.val.Unset? {
      r := Ok(p);
    } else if d == "INFO" {
      var t := WriteField(e.key, e.val);
      if t.Err? {
        return Err(t.error), e';
      }
      r := Ok(p.(info := Some("\n&INFO\n" + t.value + "\n" + Marker + "\n&END\n")));
    } else if d == "ATOMS" {
      if !e.val.AtomMap? {
        return Err(Unprintable(e.key)), e';
      }
      var t, m' := WriteAtoms(e.val.atoms);
      e' := Entry(e.key, AtomMap(m'));
      if t.Err? {
        return Err(t.error), e';
      }
      r := Ok(p.(atoms := Some("\n&ATOMS\n" + t.value + "&END\n")));
    } else {
      var t := WriteField(e.key, e.val);
      if t.Err? {
        return Err(t.error), e';
      }
      r := Ok(p.(body := p.body + ("\n&" + d + "\n" + t.value + "&END\n")));
    }
  }

  lemma DocStep(ps: Doc, k: nat, p: Parts)
    requires k < |ps| && Gather(ps[..k]) == Ok(p)
    ensures Gather(ps[..k + 1]) == Visit(p, ps[k])
    ensures (After(ps[..k]) + ps[k..])[k := TouchEntry(ps[k])] == After(ps[..k + 1]) + ps[k + 1..]
  {
    assert ps[..k + 1][..k] == ps[..k];
    assert After(ps[..k + 1]) == After(ps[..k]) + [TouchEntry(ps[k])];
    SetAtSeam(After(ps[..k]), ps, k, TouchEntry(ps[k]));
  }

  /** Once an attribute has failed, the loop is over: the result is that failure and the later attributes are untouched. */
  lemma {:induction false} DocStuck(ps: Doc, k: nat)
    requires k <= |ps| && Gather(ps[..k]).Err?
    ensures Gather(ps) == Gather(ps[..k])
    ensures After(ps) == After(ps[..k]) + ps[k..]
    decreases |ps|
  {
    if k == |ps| {
      assert ps[..k] == ps;
    } else {
      var pre := ps[..|ps| - 1];
      assert pre[..k] == ps[..k];
      DocStuck(pre, k);
      SuffixOfInit(ps, k);
    }
  }

  /** A script as Python holds it: the attributes of an Input, in order. */
  class Input {
    var params: Doc

    /** Input(*names). */
    constructor (names: seq<string>)
      ensures params == Initial(names)
    {
      var ps: Doc := [];
      for k := 0 to |names|
        invariant ps == Blank(names[..k])
      {
        BlankNext(names, k);
        ps := Put(ps, names[k], Sec([]));
      }
      assert names[..|names|] == names;
      params := Put(Put(Put(ps, "atoms", AtomMap([])), "info", Text("MiMiC Run")), "_ndx", Unset);
    }

    /** Input.__str__: the INFO block, the other blocks in order, the ATOMS block; the atoms it writes are normalised in place. */
    method ToText() returns (r: Result<string>)
      modifies this
      ensures r == RenderDoc(old(params))
      ensures params == After(old(params))
    {
      var g := Walk();
      if g.Err? {
        return Err(g.error);
      }
      var parts := g.value;
      if parts.info.None? {
        return Err(Unbound("info"));
      }
      if parts.atoms.None? {
        return Err(Unbound("atoms"));
      }
      r := Ok(parts.info.value + parts.body + parts.atoms.value);
    }

    /** The loop of Input.__str__: every attribute visited in order, until one fails. */
    method Walk() returns (g: Result<Parts>)
      modifies this
      ensures g == Gather(old(params))
      ensures params == After(old(params))
    {
      var ps := params;
      var parts := Parts(None, "", None);
      assert ps[..0] == [] && ps[0..] == ps;
      for k := 0 to |ps|
        invariant Gather(ps[..k]) == Ok(parts)
        invariant params == After(ps[..k]) + ps[k..]
      {
        var next, e' := VisitEntry(parts, ps[k]);
        DocStep(ps, k, parts);
        params := params[k := e'];
        if next.Err? {
          DocStuck(ps, k + 1);
          return next;
        }
        parts := next.value;
      }
      assert ps[..|ps|] == ps;
      NoSuffix(After(ps), ps);
      g := Ok(parts);
    }

    /** Input.fromText on the blocks of a script: a new Input, then each block in turn. */
    static method FromText(blocks: seq<Block>) returns (r: Result<Input>)
      ensures r.Ok? ==> fresh(r.value) && ReadFrom(blocks) == Ok(r.value.params)
      ensures r.Err? ==> ReadFrom(blocks) == Err(r.error)
    {
      var inp := new Input([]);
      assert blocks[..0] == [];
      for k := 0 to |blocks|
        invariant fresh(inp)
        invariant ReadFrom(blocks[..k]) == Ok(inp.params)
      {
        ReadFromNext(blocks, k, inp.params);
        var next := ReadBlockInto(inp.params, blocks[k]);
        if next.Err? {
          ReadStuck(blocks, k + 1);
          return Err(next.error);
        }
        inp.params := next.value;
      }
      assert blocks[..|blocks|] == blocks;
      r := Ok(inp);
    }
  }

  // ------------------------------------------------------------ layout

  /** The block of an attribute other than INFO and ATOMS, or nothing. */
  function OtherBlock(e: Entry<Field>): string {
    if e.val.Unset? || Upper(e.key) == "INFO" || Upper(e.key) == "ATOMS" then ""
    else match FieldText(e.key, e.val)
      case Ok(t) => SectionBlock(e.key, t)
      case Err(_) => ""
  }

  /** The blocks of all attributes other than INFO and ATOMS, in attribute order. */
  function Others(ps: Doc): string
    decreases |ps|
  {
    if ps == [] then "" else OtherBlock(ps[0]) + Others(ps[1..])
  }

  lemma {:induction false} OthersAppend(ps: Doc, e: Entry<Field>)
    ensures Others(ps + [e]) == Others(ps) + OtherBlock(e)
    decreases |ps|
  {
    if ps == [] {
      assert Others([e]) == OtherBlock(e) + Others([]);
    } else {
      assert (ps + [e])[1..] == ps[1..] + [e];
      OthersAppend(ps[1..], e);
    }
  }

  /** The last attribute that is set and whose upper-cased name is d: the one whose block the writer keeps. */
  function LastSet(ps: Doc, d: string): (r: Option<Entry<Field>>)
    ensures r.Some? ==> r.value in ps && !r.value.val.Unset? && Upper(r.value.key) == d
    ensures r.None? ==> forall e | e in ps :: e.val.Unset? || Upper(e.key) != d
    decreases |ps|
  {
    if ps == [] then None
    else
      var e := ps[|ps| - 1];
      if !e.val.Unset? && Upper(e.key) == d then Some(e)
      else
        var r := LastSet(ps[..|ps| - 1], d);
        assert forall x | x in ps :: x in ps[..|ps| - 1] || x == e by {
          assert ps == ps[..|ps| - 1] + [e];
        }
        r
  }

  /** The text the INFO block is written around: str() of the last set INFO attribute. */
  function InfoText(ps: Doc): Option<string> {
    match LastSet(ps, "INFO")
    case None => None
    case Some(e) => if FieldText(e.key, e.val).Ok? then Some(FieldText(e.key, e.val).value) else None
  }

  /** The text the ATOMS block is written around: the atom texts of the last set ATOMS map. */
  function AtomsText(ps: Doc): Option<string> {
    match LastSet(ps, "ATOMS")
    case None => None
    case Some(e) => if e.val.AtomMap? && AtomsBody(e.val.atoms).Ok? then Some(AtomsBody(e.val.atoms).value) else None
  }

  /**
    What the loop has gathered: the other blocks in order; an INFO block exactly
    when some INFO attribute is set, around the text of the last one; an ATOMS
    block exactly when some ATOMS attribute is set, around the atoms of the last one.
   */
  lemma {:induction false} GatherShape(ps: Doc)
    requires Gather(ps).Ok?
    ensures Gather(ps).value.body == Others(ps)
    ensures Gather(ps).value.info.Some? <==> LastSet(ps, "INFO").Some?
    ensures Gather(ps).value.info.Some? ==> InfoText(ps).Some? && Gather(ps).value.info.value == InfoBlock(InfoText(ps).value)
    ensures Gather(ps).value.atoms.Some? <==> LastSet(ps, "ATOMS").Some?
    ensures Gather(ps).value.atoms.Some? ==> AtomsText(ps).Some? && Gather(ps).value.atoms.value == AtomsBlock(AtomsText(ps).value)
    decreases |ps|
  {
    if ps != [] {
      var pre := ps[..|ps| - 1];
      var e := ps[|ps| - 1];
      GatherShape(pre);
      assert ps == pre + [e];
      OthersAppend(pre, e);
      assert Gather(ps) == Visit(Gather(pre).value, e);
      VisitShape(Gather(pre).value, e);
      InfoCarried(Gather(pre).value, ps);
      AtomsCarried(Gather(pre).value, ps);
    }
  }

  /** The INFO part of the shape carries over one more attribute. */
  lemma InfoCarried(p: Parts, ps: Doc)
    requires ps != [] && Visit(p, ps[|ps| - 1]).Ok?
    requires p.info.Some? <==> LastSet(ps[..|ps| - 1], "INFO").Some?
    requires p.info.Some? ==> InfoText(ps[..|ps| - 1]).Some? && p.info.value == InfoBlock(InfoText(ps[..|ps| - 1]).value)
    ensures var q := Visit(p, ps[|ps| - 1]).value;
      && (q.info.Some? <==> LastSet(ps, "INFO").Some?)
      && (q.info.Some? ==> InfoText(ps).Some? && q.info.value == InfoBlock(InfoText(ps).value))
  {
    VisitShape(p, ps[|ps| - 1]);
    LastSetStep(ps, "INFO");
    SameLast(ps, ps[..|ps| - 1]);
  }

  /** The ATOMS part of the shape carries over one more attribute. */
  lemma AtomsCarried(p: Parts, ps: Doc)
    requires ps != [] && Visit(p, ps[|ps| - 1]).Ok?
    requires p.atoms.Some? <==> LastSet(ps[..|ps| - 1], "ATOMS").Some?
    requires p.atoms.Some? ==> AtomsText(ps[..|ps| - 1]).Some? && p.atoms.value == AtomsBlock(AtomsText(ps[..|ps| - 1]).value)
    ensures var q := Visit(p, ps[|ps| - 1]).value;
      && (q.atoms.Some? <==> LastSet(ps, "ATOMS").Some?)
      && (q.atoms.Some? ==> AtomsText(ps).Some? && q.atoms.value == AtomsBlock(AtomsText(ps).value))
  {
    VisitShape(p, ps[|ps| - 1]);
    LastSetStep(ps, "ATOMS");
    SameLast(ps, ps[..|ps| - 1]);
  }

  /** The INFO and ATOMS texts depend only on which attribute is the last one set under that name. */
  lemma SameLast(ps: Doc, qs: Doc)
    ensures LastSet(ps, "INFO") == LastSet(qs, "INFO") ==> InfoText(ps) == InfoText(qs)
    ensures LastSet(ps, "ATOMS") == LastSet(qs, "ATOMS") ==> AtomsText(ps) == AtomsText(qs)
  {
  }

  /** The last set attribute named d is the final one, if that is set and named d, or else the last one before it. */
  lemma LastSetStep(ps: Doc, d: string)
    requires ps != []
    ensures var e := ps[|ps| - 1];
      LastSet(ps, d) == (if !e.val.Unset? && Upper(e.key) == d then Some(e) else LastSet(ps[..|ps| - 1], d))
  {
  }

  /** One iteration keeps that shape: it adds e's block to the others, or sets INFO or ATOMS from e. */
  lemma VisitShape(p: Parts, e: Entry<Field>)
    requires Visit(p, e).Ok?
    ensures Visit(p, e).value.body == p.body + OtherBlock(e)
    ensures !e.val.Unset? && Upper(e.key) == "INFO" ==>
      FieldText(e.key, e.val).Ok? && Visit(p, e).value.info == Some(InfoBlock(FieldText(e.key, e.val).value))
    ensures e.val.Unset? || Upper(e.key) != "INFO" ==> Visit(p, e).value.info == p.info
    ensures !e.val.Unset? && Upper(e.key) == "ATOMS" ==>
      e.val.AtomMap? && AtomsBody(e.val.atoms).Ok? && Visit(p, e).value.atoms == Some(AtomsBlock(AtomsBody(e.val.atoms).value))
    ensures e.val.Unset? || Upper(e.key) != "ATOMS" ==> Visit(p, e).value.atoms == p.atoms
  {
  }

  /**
    A script that is written at all is its INFO block around the text of the
    last INFO attribute, then the blocks of the other attributes in their order,
    then its ATOMS block around the atoms of the last ATOMS map, wherever INFO
    and ATOMS stand among the attributes.
   */
  lemma DocLayout(ps: Doc)
    requires RenderDoc(ps).Ok?
    ensures InfoText(ps).Some? && AtomsText(ps).Some?
    ensures RenderDoc(ps).value == InfoBlock(InfoText(ps).value) + Others(ps) + AtomsBlock(AtomsText(ps).value)
  {
    GatherShape(ps);
  }

  // ------------------------------------------------------------ reading

  /** One block of a script as the block pattern finds it: its name, its body, and for ATOMS each atom's header and body. */
  datatype Block = Block(name: string, body: string, atoms: seq<(string, string)>)

  /** An atom header taken apart. */
  datatype Species = Species(element: string, pp: string, labels: string)

  /** The position of the first c at or after i. */
  function CharIndex(s: string, c: char, i: nat): (r: Option<nat>)
    requires i <= |s|
    ensures r.Some? ==> i <= r.value < |s| && s[r.value] == c
    ensures r.Some? ==> forall j | i <= j < r.value :: s[j] != c
    ensures r.None? ==> forall j | i <= j < |s| :: s[j] != c
    decreases |s| - i
  {
    if i == |s| then None else if s[i] == c then Some(i) else CharIndex(s, c, i + 1)
  }

  lemma {:induction false} CharIndexAt(s: string, c: char, i: nat, n: nat)
    requires i <= n < |s| && s[n] == c
    requires forall j | i <= j < n :: s[j] != c
    ensures CharIndex(s, c, i) == Some(n)
    decreases n - i
  {
    if i < n { CharIndexAt(s, c, i + 1, n); }
  }

  /**
    The header decomposition of Input.fromText: the element is the text before
    the first '_', the pseudopotential the first word after it, and the label
    the header with every element_pp deleted.
   */
  function SplitHeader(h: string): (r: Result<Species>)
    ensures '_' !in h <==> r == Err(NoUnderscore(h))
    ensures r.Ok? ==> '_' !in r.value.element && StartsWith(h, r.value.element + "_") && IsToken(r.value.pp)
  {
    match CharIndex(h, '_', 0)
    case None => Err(NoUnderscore(h))
    case Some(i) =>
      var e := h[..i];
      assert forall j | 0 <= j < |e| :: e[j] == h[j];
      assert h[..i + 1] == e + "_";
      var words := Words(h[i + 1..]);
      if words == [] then Err(NoPseudopotential(h))
      else
        assert words[0] in words;
        Ok(Species(e, words[0], ReplaceAll(h, e + "_" + words[0], "")))
  }

  /** One atom of the ATOMS block: Atom.fromText on its body, stored under its element in the atoms map. */
  function ReadAtom(ps: Doc, pair: (string, string)): Result<Doc> {
    match SplitHeader(pair.0)
    case Err(x) => Err(x)
    case Ok(sp) =>
      match ParseAtom(pair.1, sp.pp, sp.labels)
      case Err(x) => Err(x)
      case Ok(a) =>
        var f := Get(ps, "atoms");
        if f.Some? && f.value.AtomMap? then Ok(Put(ps, "atoms", AtomMap(Put(f.value.atoms, sp.element, a))))
        else Err(NoAtomMap)
  }

  /** The loop over the atoms of the ATOMS block, up to the first failure. */
  function ReadAtoms(ps: Doc, pairs: seq<(string, string)>): Result<Doc>
    decreases |pairs|
  {
    if pairs == [] then Ok(ps)
    else
      match ReadAtoms(ps, pairs[..|pairs| - 1])
      case Err(x) => Err(x)
      case Ok(q) => ReadAtom(q, pairs[|pairs| - 1])
  }

  /** One block: INFO loses its marker, ATOMS fills the atoms map, any other becomes a Section. */
  function ReadBlock(ps: Doc, b: Block): Result<Doc> {
    if b.name == "INFO" then Ok(Put(ps, "INFO", Text(ReplaceAll(b.body, Marker, ""))))
    else if b.name == "ATOMS" then ReadAtoms(ps, b.atoms)
    else
      match Parse(b.body)
      case Err(x) => Err(x)
      case Ok(sec) => Ok(Put(ps, b.name, Sec(sec)))
  }

  /** Input.fromText as a value: the blocks read in order into a new Input. */
  function ReadFrom(blocks: seq<Block>): Result<Doc>
    decreases |blocks|
  {
    if blocks == [] then Ok(Initial([]))
    else
      match ReadFrom(blocks[..|blocks| - 1])
      case Err(x) => Err(x)
      case Ok(ps) => ReadBlock(ps, blocks[|blocks| - 1])
  }

  /** One more block read after the first k. */
  lemma ReadFromNext(blocks: seq<Block>, k: nat, ps: Doc)
    requires k < |blocks| && ReadFrom(blocks[..k]) == Ok(ps)
    ensures ReadFrom(blocks[..k + 1]) == ReadBlock(ps, blocks[k])
  {
    var pre := blocks[..k + 1];
    assert pre[..|pre| - 1] == blocks[..k];
    assert pre[|pre| - 1] == blocks[k];
  }

  lemma {:induction false} ReadAtomsStuck(ps: Doc, pairs: seq<(string, string)>, j: nat)
    requires j <= |pairs| && ReadAtoms(ps, pairs[..j]).Err?
    ensures ReadAtoms(ps, pairs) == ReadAtoms(ps, pairs[..j])
    decreases |pairs|
  {
    if j == |pairs| {
      assert pairs[..j] == pairs;
    } else {
      var pre := pairs[..|pairs| - 1];
      assert pre[..j] == pairs[..j];
      ReadAtomsStuck(ps, pre, j);
    }
  }

  lemma {:induction false} ReadStuck(blocks: seq<Block>, k: nat)
    requires k <= |blocks| && ReadFrom(blocks[..k]).Err?
    ensures ReadFrom(blocks) == ReadFrom(blocks[..k])
    decreases |blocks|
  {
    if k == |blocks| {
      assert blocks[..k] == blocks;
    } else {
      var pre := blocks[..|blocks| - 1];
      assert pre[..k] == blocks[..k];
      ReadStuck(pre, k);
    }
  }

  /** One iteration of Input.fromText: the dispatch on the block's name. */
  method ReadBlockInto(ps: Doc, b: Block) returns (r: Result<Doc>)
    ensures r == ReadBlock(ps, b)
  {
    if b.name == "INFO" {
      r := Ok(Put(ps, "INFO", Text(ReplaceAll(b.body, Marker, ""))));
    } else if b.name == "ATOMS" {
      r := ReadAtomsInto(ps, b.atoms);
    } else {
      var sec := Sections.FromText(b.body);
      if sec.Err? {
        return Err(sec.error);
      }
      r := Ok(Put(ps, b.name, Sec(sec.value)));
    }
  }

  /** The ATOMS branch of Input.fromText: the loop over the atoms of the block. */
  method ReadAtomsInto(ps: Doc, pairs: seq<(string, string)>) returns (r: Result<Doc>)
    ensures r == ReadAtoms(ps, pairs)
  {
    var cur := ps;
    assert pairs[..0] == [];
    for j := 0 to |pairs|
      invariant ReadAtoms(ps, pairs[..j]) == Ok(cur)
    {
      assert pairs[..j + 1][..j] == pairs[..j];
      var header, text := pairs[j].0, pairs[j].1;
      var sp := SplitHeader(header);
      if sp.Err? {
        ReadAtomsStuck(ps, pairs, j + 1);
        return Err(sp.error);
      }
      var a := ParseAtom(text, sp.value.pp, sp.value.labels);
      if a.Err? {
        ReadAtomsStuck(ps, pairs, j + 1);
        return Err(a.error);
      }
      var atoms := Get(cur, "atoms");
      if !(atoms.Some? && atoms.value.AtomMap?) {
        ReadAtomsStuck(ps, pairs, j + 1);
        return Err(NoAtomMap);
      }
      cur := Put(cur, "atoms", AtomMap(Put(atoms.value.atoms, sp.value.element, a.value)));
    }
    assert pairs[..|pairs|] == pairs;
    r := Ok(cur);
  }

  // ------------------------------------------------------------ reading what was written

  /**
    The header the writer emits for an atom (after the '*') reads back as its
    element, its pseudopotential without the leading '_', and its labels, as
    long as the element has no '_' and the labels do not repeat element_pp.
   */
  lemma HeaderRoundTrip(e: string, a: AtomRecord)
    requires '_' !in e && IsToken(NormalPp(a.pp)[1..])
    requires !Contains(NormalLabels(a.labels), e + NormalPp(a.pp))
    ensures SplitHeader(e + Header(a)) == Ok(Species(e, NormalPp(a.pp)[1..], NormalLabels(a.labels)))
  {
    var q, l := NormalPp(a.pp)[1..], NormalLabels(a.labels);
    assert NormalPp(a.pp) == NormalPp(a.pp)[..1] + q;
    assert Header(a) == ("_" + q) + l;
    Regroup(e, "_" + q, l);
    Regroup(e, "_", q);
    SplitHeaderOf(e, q, l);
  }

  lemma SplitHeaderOf(e: string, q: string, l: string)
    requires '_' !in e && IsToken(q) && (l == "" || StartsWith(l, " "))
    requires !Contains(l, e + ("_" + q))
    ensures SplitHeader(e + "_" + q + l) == Ok(Species(e, q, l))
  {
    var h := e + "_" + q + l;
    Regroup(e + "_", q, l);
    UnderscoreAt(h, e, q + l);
    RestOfHeader(e, q, l);
    SplitHeaderAt(h, |e|, e, [q] + Words(l), l);
  }

  /** The first '_' of e + "_" + r, with no '_' in e, is the one after e. */
  lemma UnderscoreAt(h: string, e: string, r: string)
    requires '_' !in e && h == e + "_" + r
    ensures |e| < |h| && CharIndex(h, '_', 0) == Some(|e|) && h[..|e|] == e && h[|e| + 1..] == r
  {
    assert forall j | 0 <= j < |e| :: h[j] == e[j];
    CharIndexAt(h, '_', 0, |e|);
  }

  /** The words after the '_' start with the pseudopotential, and removing "<element>_<pp>" leaves the labels. */
  lemma RestOfHeader(e: string, q: string, l: string)
    requires IsToken(q) && (l == "" || StartsWith(l, " "))
    requires !Contains(l, e + ("_" + q))
    ensures Words(q + l) == [q] + Words(l)
    ensures ReplaceAll(e + "_" + q + l, e + "_" + q, "") == l
  {
    var pat := e + "_" + q;
    assert l == [] || IsSpace(l[0]);
    WordsOfTokenThen(q, l);
    Regroup(e, "_", q);
    ReplaceLeading(pat, l, "");
    ReplaceAbsent(l, pat, "");
    assert "" + l == l;
  }

  lemma SplitHeaderAt(h: string, i: nat, e: string, w: seq<string>, rest: string)
    requires i < |h| && CharIndex(h, '_', 0) == Some(i) && h[..i] == e
    requires Words(h[i + 1..]) == w && w != [] && ReplaceAll(h, e + "_" + w[0], "") == rest
    ensures SplitHeader(h) == Ok(Species(e, w[0], rest))
  {
  }

  /** Reading an atom of an element already in the map overwrites its entry in place. */
  lemma SameElementOverwrites(ps: Doc, pair: (string, string), m: seq<Entry<AtomRecord>>, i: nat)
    requires Get(ps, "atoms") == Some(AtomMap(m)) && Distinct(Keys(m)) && i < |m|
    requires SplitHeader(pair.0).Ok? && SplitHeader(pair.0).value.element == m[i].key
    requires ParseAtom(pair.1, SplitHeader(pair.0).value.pp, SplitHeader(pair.0).value.labels).Ok?
    ensures var a := ParseAtom(pair.1, SplitHeader(pair.0).value.pp, SplitHeader(pair.0).value.labels).value;
      ReadAtom(ps, pair) == Ok(Put(ps, "atoms", AtomMap(m[i := Entry(m[i].key, a)])))
    ensures ReadAtom(ps, pair).Ok? && Keys(ReadAtom(ps, pair).value) == Keys(ps)
  {
    var a := ParseAtom(pair.1, SplitHeader(pair.0).value.pp, SplitHeader(pair.0).value.labels).value;
    PutExisting(m, i, a);
  }

  /** A link atom C* and an atom C are written under the same name, so they read back into one entry. */
  lemma LinkAtomsCollide(key: string)
    ensures Bare(key + "*") == Bare(key)
    ensures '*' !in Bare(key)
  {
    ReplaceCharAppend(key, '*', "");
    assert Bare(key) + "" == Bare(key);
    DeleteCharMembers(key, '*');
  }

  /**
    The INFO body the writer produces (the text, then the marker line) reads
    back as the text followed by two line breaks: the marker goes, its line does not.
   */
  lemma InfoRoundTrip(ps: Doc, x: string)
    requires !Contains(x, Marker)
    ensures ReadBlock(ps, Block("INFO", x + "\n" + Marker + "\n", [])) == Ok(Put(ps, "INFO", Text(x + "\n\n")))
  {
    assert '\n' !in Marker by {
      forall j | 0 <= j < |Marker| ensures Marker[j] != '\n' { }
    }
    ReplaceBeforeBreak(x, Marker + "\n", Marker, "");
    ReplaceLeading(Marker, "\n", "");
    assert ReplaceAll("\n", Marker, "") == "\n";
    assert x + "\n" + Marker + "\n" == x + ("\n" + (Marker + "\n"));
    assert x + ("\n" + ("" + "\n")) == x + "\n\n";
  }

  /** A Section the writer puts in its own block reads back as its set parameters. */
  lemma SectionBlockRoundTrip(ps: Doc, name: string, sec: Params)
    requires name != "INFO" && name != "ATOMS"
    requires Distinct(Keys(sec)) && (forall p | p in sec :: Plain(p)) && EndsWithValue(sec)
    ensures ReadBlock(ps, Block(name, Render(sec), [])) == Ok(Put(ps, name, Sec(SetOnly(sec))))
  {
    RoundTrip(sec);
  }
}
