# CPMD input scripts: a verified model of the reader and writer

This project models the core of `pygmx/scripts/cpmd.py`, the reader and writer of
CPMD input scripts in MiMiCPy. Such a script is a sequence of `&NAME ... &END`
blocks. The model covers these parts of it:

- **Sections** (`module Sections`). A Section is an ordered map from parameter names
  to values. `Section.fromText` is a method with a cursor loop. It is proved equal to
  the specification function `Parse`, which is a fold of one scanning pass (`ScanStep`)
  over the lines. The special cases are PATHS (two value lines) and OVERLAPS (a count
  line, then that many lines). The general rule uses a numeric heuristic:
  - a line followed by a numeric line is a parameter with that line as its value;
  - a non-numeric line is a flag;
  - a numeric line is skipped.

  `Section.__str__` is a method proved equal to `Render`. Reading back what `Render`
  writes gives the set parameters in order (`RoundTrip`) when the names are distinct,
  the last set value is not blank, and every parameter is plain:
  - its name is already in written form, with no line break, and is not numeric;
  - its value is already stripped;
  - a PATHS value is two lines, and an OVERLAPS value is a count line n followed by
    n lines;
  - any other value is one line, blank or numeric. The reader takes a non-numeric
    value line for a flag.
- **The numeric test** (`module Numeric`). `Section._chknumeric` becomes `ChkNumeric`,
  with lemmas that characterise it word by word.
- **Atoms** (`module Atoms`). `Atom` is a class, because `Atom.__str__` rewrites `pp`
  and `labels` in place before writing. `Atom.fromText` is the function `ParseAtom`.
  Writing the body of an atom and reading it back gives its coordinates and its
  upper-cased LMAX, provided every coordinate has exactly three non-empty entries
  without whitespace and LMAX holds no line break.
- **Whole scripts** (`module Inputs`). `Input` is a class whose attributes are an
  ordered map `params`. Its operations are:
  - the constructor;
  - `Input.__str__`, which writes the INFO block, then every other block in order,
    then the ATOMS block, and normalises each atom it writes;
  - the per-block dispatch of `Input.fromText`:
    - the INFO block loses the marker text `GENERATED BY MIMICPY`, but keeps the line
      break after it;
    - each atom header is split into element, pseudopotential and label, and the atom
      is stored under its element, overwriting in place;
    - every other block goes through `Section.fromText`.
- **Coordinates** (`module Coords`). This is the non-numeric part of `Input.toCoords`:
  - the overlap ids, taken from the lines of the OVERLAPS value after its count line;
  - the coordinates of all atoms, concatenated in map order;
  - the checks that pair ids with coordinate rows;
  - the extension of the destination name, where only `pdb` has a writer.

`module PyStr` gives the Python string operations the source relies on:
`str.split()`, `str.splitlines()`, `str.strip()`, `str.replace()`,
`str.upper()`/`lower()`, `"\n".join`, and `int()`. They use Python's whitespace and
line-break sets. `module OrderedMaps` gives the insertion-ordered attribute bag and
dictionary. `module Outcomes` gives `Option`, `Result` and the error kinds. Most
error kinds stand for an exception the source would raise, such as an `IndexError`,
a `ValueError` from `int()`, or an unbound local variable. `NegativeCount` is the
corrected refusal of an OVERLAPS count that makes the loop run forever (see
"## Findings"). `Unprintable` also covers a value the source would write as repr
text (see "## Left out").

Python attributes set to `None` are `None` values (`Option.None` in a Section, `Unset` in
an Input). Integers are unbounded, as in Python.

Three behaviours of the code that a reader might not expect:

- `_chknumeric("")` and `_chknumeric` of a whitespace-only text are True, because the
  loop over zero words finds nothing to reject.
- A single word with whitespace around it is not numeric, because the whole text,
  whitespace included, is checked.
- `Section.fromText` stores a parameter under the line exactly as read, with no
  upper-casing and no dash/underscore rewriting. `Section.__str__` rewrites the names
  when it writes them.

## Model

| member | source | states |
|---|---|---|
| OrderedMaps.Put | pygmx/scripts/cpmd.py:152 | assignment to a dictionary key or attribute: a new name is appended last, an existing name keeps its place; the value is then found under the name and every other name is unchanged |
| OrderedMaps.PutExisting | pygmx/scripts/cpmd.py:152 | assigning to a name already present replaces only that entry, in place |
| OrderedMaps.PutFresh | pygmx/scripts/cpmd.py:107 | assigning to a new name appends an entry after all the others |
| Numeric.ChkNumericWord | pygmx/scripts/cpmd.py:41-45 | a single word is numeric iff it consists of digits, dots and dashes and holds at least one digit |
| Numeric.ChkNumericWords | pygmx/scripts/cpmd.py:46-50 | a text of zero or several words is numeric iff each word is; so the empty text and whitespace are numeric |
| Numeric.AllNumericEach | pygmx/scripts/cpmd.py:47-50 | the early-return loop over the words accepts iff every word is accepted |
| Numeric.PaddedWordNotNumeric | pygmx/scripts/cpmd.py:44-45 | one word with whitespace before or after it is not numeric, because the whitespace is checked too |
| Numeric.LeadingLetterNotNumeric | pygmx/scripts/cpmd.py:41-50 | a text whose first character is not whitespace, a digit, '.' or '-' is not numeric |
| Sections.ScanStep | pygmx/scripts/cpmd.py:58-76 | each pass of the loop moves the cursor strictly forward, and any parameter it sets is named by the current line |
| Sections.Scan | pygmx/scripts/cpmd.py:53-77 | the names of the scanned section are distinct, and each is a line before the last one |
| Sections.ScanAdvance | pygmx/scripts/cpmd.py:58-76 | a successful pass hands its cursor and its updated section to the rest of the loop, and names stay distinct |
| Sections.PassPaths | pygmx/scripts/cpmd.py:59-61 | a PATHS line takes the next (up to) two lines joined by "\n" as its value; the cursor advances by 3 |
| Sections.PassOverlaps | pygmx/scripts/cpmd.py:63-68 | an OVERLAPS line with count n >= -1 takes the count line and the next n lines as its value; the cursor advances by n + 2 |
| Sections.CountStep | pygmx/scripts/cpmd.py:63-68 | a successful OVERLAPS pass moves the cursor forward and sets the parameter OVERLAPS |
| Sections.CountMatchesAsWritten | pygmx/scripts/cpmd.py:63-68 | once int() has read a count n >= -1, the corrected branch and the branch as written set the same value and move the cursor to the same line |
| Sections.OverlapsFails | pygmx/scripts/cpmd.py:63-64 | an OVERLAPS count that int() rejects fails the pass; a count below -1 is refused (the corrected half of the finding below) |
| Sections.OverlapsStep | pygmx/scripts/cpmd.py:63-68 | the OVERLAPS pass succeeds with the joined lines as its value and the cursor at i + n + 2 |
| Sections.PassValue | pygmx/scripts/cpmd.py:70-71 | a line followed by a numeric line becomes a parameter with that value; the cursor advances by 1 |
| Sections.PassFlag | pygmx/scripts/cpmd.py:73-74 | a non-numeric line followed by a non-numeric line becomes a flag with value ''; the cursor advances by 1 |
| Sections.PassSkip | pygmx/scripts/cpmd.py:70-76 | a numeric line followed by a non-numeric line sets nothing; the cursor advances by 1 |
| Sections.Pass | pygmx/scripts/cpmd.py:58-76 | one iteration of the loop body computes the section and cursor that the specification pass gives |
| Sections.PassCount | pygmx/scripts/cpmd.py:63-68 | the OVERLAPS branch, once int() has read the count line or failed to, agrees with the specification pass, failures included |
| Sections.PassName | pygmx/scripts/cpmd.py:70-74 | the value, flag and skip branches agree with the specification pass |
| Sections.FromText | pygmx/scripts/cpmd.py:53-77 | the loop over the lines yields exactly the parsed section, or the failure of the first failing pass |
| Sections.TrailingFlagDropped | pygmx/scripts/cpmd.py:58 | the last line is never taken as a name, so a lone flag reads back as an empty section |
| Sections.ScanStepMatchesAsWritten | pygmx/scripts/cpmd.py:63-68 | for every count >= -1 the corrected OVERLAPS pass equals the pass as written |
| Sections.MinusOneCountIsEmpty | pygmx/scripts/cpmd.py:63-68 | with count -1 the value is empty and the cursor moves one line on, in the code as written and in the corrected scan alike |
| Sections.OverlapsPassAsWritten | pygmx/scripts/cpmd.py:63-76 | the OVERLAPS branch as written succeeds exactly when int() reads the count line, and then moves the cursor forward exactly when the count is at least -1 |
| Sections.NegativeCountLoopsForever | pygmx/scripts/cpmd.py:63-68 | with count -2 the pass as written returns to the same cursor and the same section, so the loop never ends |
| Sections.RenderPrefix | pygmx/scripts/cpmd.py:27-36 | writing one more parameter appends its lines to the text written so far |
| Sections.ParamText | pygmx/scripts/cpmd.py:31-36 | a set parameter is written as its rewritten name, then its stripped value on a second line unless that is blank |
| Sections.RenderSkipsUnset | pygmx/scripts/cpmd.py:28-29 | parameters set to None contribute nothing to the text |
| Sections.CanonNameIdempotent | pygmx/scripts/cpmd.py:31 | rewriting a written name again ('_' to '-', '--' to ' ', upper case) changes nothing |
| Sections.ToText | pygmx/scripts/cpmd.py:23-38 | the loop appending each parameter's lines yields the rendered section |
| Sections.SplitWritten | pygmx/scripts/cpmd.py:23-38 | for plain parameters, splitting the written text at its line breaks gives, parameter by parameter, the name and then the lines of the value: two for PATHS, the count line and the counted lines for OVERLAPS, one or none for the others |
| Sections.ScanWritten | pygmx/scripts/cpmd.py:53-77 | scanning those lines gives back the set parameters in order, for plain parameters with distinct names whose last set value is not blank: PATHS takes its two lines, OVERLAPS its count line and the n lines counted, and every other value is blank or numeric on one line |
| Sections.RoundTrip | pygmx/scripts/cpmd.py:23-77 | reading a written section gives back its set parameters in order, under the same conditions: names distinct and already in written form, values already stripped, PATHS two lines, OVERLAPS a count n then n lines, every other value blank or numeric on one line, the last set value not blank |
| Sections.PathsPlain | pygmx/scripts/cpmd.py:59-61 | two non-empty lines, the first not starting and the second not ending with whitespace, make a PATHS value that RoundTrip covers |
| Sections.OverlapsPlain | pygmx/scripts/cpmd.py:63-68 | any rows without line breaks, the last one (if any) non-empty and not ending with whitespace, after a count line holding their number, make an OVERLAPS value that RoundTrip covers |
| Atoms.NormalPp | pygmx/scripts/cpmd.py:87 | the pseudopotential is left starting with '_': unchanged if it already does, otherwise prefixed |
| Atoms.NormalLabels | pygmx/scripts/cpmd.py:88 | the labels are left empty or starting with a space: unchanged if they already are, otherwise prefixed |
| Atoms.NormalizedIdempotent | pygmx/scripts/cpmd.py:86-95 | normalising twice is normalising once, and normalising first does not change the text written |
| Atoms.CoordLines | pygmx/scripts/cpmd.py:92-93 | one line per coordinate, in order, each the coordinate's first three entries |
| Atoms.AtomShape | pygmx/scripts/cpmd.py:89-94 | an atom is written as one line per coordinate plus four; the count line reads back as the number of coordinates, the LMAX line is upper-cased and the last line is blank |
| Atoms.Atom.constructor | pygmx/scripts/cpmd.py:80-84 | the new atom holds the given coordinates, LMAX, pseudopotential and labels |
| Atoms.Atom.ToText | pygmx/scripts/cpmd.py:86-95 | the atom's pp and labels are normalised in place, and the text is the rendering of the atom as it was, or an IndexError for a coordinate with fewer than three entries |
| Atoms.FindLmax | pygmx/scripts/cpmd.py:99 | LMAX is found iff "LMAX=" occurs, and it is the rest of the line after the first occurrence, up to the line break or the end |
| Atoms.ParseAtom | pygmx/scripts/cpmd.py:97-101 | reading succeeds iff "LMAX=" occurs; the pp and labels are the ones given; there is one coordinate per line after the first two |
| Atoms.CoordLineWords | pygmx/scripts/cpmd.py:93 | str.split() of a written coordinate line gives back its three entries |
| Atoms.AtomRoundTrip | pygmx/scripts/cpmd.py:86-101 | reading the lines written after the header gives back the coordinates and the upper-cased LMAX |
| Inputs.InitialLayout | pygmx/scripts/cpmd.py:104-110 | a new Input lists the named Sections in order, then atoms, info and _ndx |
| Inputs.Input.constructor | pygmx/scripts/cpmd.py:104-110 | the attributes are an empty Section per name, an empty atoms map, the info text and an unset _ndx |
| Inputs.Touched | pygmx/scripts/cpmd.py:124-127 | the atoms the writing loop leaves behind keep their keys, in order |
| Inputs.After | pygmx/scripts/cpmd.py:118-131 | the attributes the writing loop leaves behind keep their names, in order |
| Inputs.WriteAtoms | pygmx/scripts/cpmd.py:124-128 | the ATOMS loop writes each atom as '*', its key without asterisks, then its text, in map order, and leaves each atom it reached normalised |
| Inputs.AtomsStuck | pygmx/scripts/cpmd.py:125-127 | once an atom fails to write, the loop's result is that failure and the later atoms are untouched |
| Inputs.WriteField | pygmx/scripts/cpmd.py:130 | str() of an attribute is its text, or Section.__str__ for a Section |
| Inputs.VisitEntry | pygmx/scripts/cpmd.py:118-131 | one iteration skips None, dispatches on the upper-cased name to INFO, ATOMS or an ordinary block, and updates the attribute as the atoms are normalised |
| Inputs.DocStuck | pygmx/scripts/cpmd.py:118-131 | once an attribute fails to write, the result is that failure and the later attributes are untouched |
| Inputs.Input.Walk | pygmx/scripts/cpmd.py:118-131 | the loop over the attributes yields what the specification gathers, up to the first failure, and leaves the attributes as that loop leaves them |
| Inputs.GatherShape | pygmx/scripts/cpmd.py:118-131 | what the loop gathers is the blocks of the other attributes in order, and INFO and ATOMS blocks of their shape |
| Inputs.Input.ToText | pygmx/scripts/cpmd.py:115-133 | the text is the rendering of the script as it was, and the attributes are left as the loop leaves them |
| Inputs.DocLayout | pygmx/scripts/cpmd.py:115-133 | a written script is the INFO block around the text of the last set attribute whose upper-cased name is INFO, then the blocks of all other attributes in attribute order, then the ATOMS block around the atom texts of the last set ATOMS map |
| Inputs.SplitHeader | pygmx/scripts/cpmd.py:148-150 | a header without '_' fails; otherwise the element is the part before the first '_' and the pseudopotential is a single word |
| Inputs.HeaderRoundTrip | pygmx/scripts/cpmd.py:148-150 | an element followed by a written atom header splits back into that element, the pseudopotential without its '_', and the labels |
| Inputs.SameElementOverwrites | pygmx/scripts/cpmd.py:152 | an atom whose element is already in the map replaces that entry in place, and the script's attributes are unchanged |
| Inputs.LinkAtomsCollide | pygmx/scripts/cpmd.py:127 | a link atom C* is written under the same name as C, with no asterisk left |
| Inputs.InfoRoundTrip | pygmx/scripts/cpmd.py:144 | the INFO body the writer produces reads back as the text with the marker deleted and its line break kept |
| Inputs.SectionBlockRoundTrip | pygmx/scripts/cpmd.py:154 | an ordinary block written from a Section reads back as a Section of its set parameters, under the conditions of Sections.RoundTrip (PATHS and OVERLAPS blocks included) |
| Inputs.ReadStuck | pygmx/scripts/cpmd.py:143-154 | once a block fails to read, the whole read fails with that error |
| Inputs.ReadAtomsInto | pygmx/scripts/cpmd.py:147-152 | the loop over the atoms of the ATOMS block computes the specification fold, failures included |
| Inputs.ReadBlockInto | pygmx/scripts/cpmd.py:144-154 | one block is dispatched on its name to INFO, ATOMS or Section.fromText |
| Inputs.Input.FromText | pygmx/scripts/cpmd.py:136-157 | reading the blocks into a fresh Input yields the specification's script, or its failure |
| Coords.LastSegment | pygmx/scripts/cpmd.py:160 | the segment holds no '.', is a suffix of the name, and is the whole name or preceded by a '.' |
| Coords.ExtensionOf | pygmx/scripts/cpmd.py:160 | the extension of base.ext is ext lower-cased, whatever base is |
| Coords.BareNameIsExtension | pygmx/scripts/cpmd.py:160 | a name without a dot is its own extension, lower-cased |
| Coords.Collect | pygmx/scripts/cpmd.py:162 | a comprehension whose elements may raise succeeds iff every element does, and then holds every value in order |
| Coords.CollectFirstFailure | pygmx/scripts/cpmd.py:162 | a failing comprehension fails with the error of its first failing element |
| Coords.LineIds | pygmx/scripts/cpmd.py:162 | one outcome per line, in order, each that line's id or its failure |
| Coords.LineId | pygmx/scripts/cpmd.py:162 | a line yields an id iff it has at least two words and the second is an integer |
| Coords.IdsOf | pygmx/scripts/cpmd.py:162 | the ids succeed iff every line yields one; then there is one id per line, in order |
| Coords.IdsOfFirstFailure | pygmx/scripts/cpmd.py:162 | a failure is the failure of the first line without an id |
| Coords.OverlapsValueIds | pygmx/scripts/cpmd.py:162 | the ids of an OVERLAPS value are those of its lines after the count line |
| Coords.StoredOverlapsIds | pygmx/scripts/cpmd.py:63-66 | the OVERLAPS value Section.fromText stores for count n yields the ids of the n lines after the count line, no more and no fewer |
| Coords.IdsOfRows | pygmx/scripts/cpmd.py:162 | lines that each name an id give one id per line |
| Coords.FlattenAppend | pygmx/scripts/cpmd.py:164 | the coordinates of two maps one after the other are those of the first, then those of the second |
| Coords.FlattenAround | pygmx/scripts/cpmd.py:164 | each atom's coordinates sit between those of the atoms before it and those after it |
| Coords.OverwriteKeepsPlace | pygmx/scripts/cpmd.py:164 | replacing an atom in place puts its coordinates where the old ones were |
| Coords.Width | pygmx/scripts/cpmd.py:166-167 | the column count is the length of the longest row |
| Coords.Pair | pygmx/scripts/cpmd.py:176 | the k-th id goes with the k-th coordinate row |
| Coords.ToCoords | pygmx/scripts/cpmd.py:159-186 | output is produced iff the ids can be read, there is an atoms map, there are rows and the widest has three entries, there are as many ids as rows, and the extension is pdb; each id is then paired with its row in atom order; when only the extension is wrong, the failure is the unbound `out_txt` |
| Coords.SameExtension | pygmx/scripts/cpmd.py:181-186 | the outcome depends on the destination only through its extension |
| Coords.GroNotWritten | pygmx/scripts/cpmd.py:181-186 | a .gro destination, in either case, never gets output |
| Coords.PdbAnyCase | pygmx/scripts/cpmd.py:160 | base.PDB is treated exactly as base.pdb |

## Left out

- The regular expressions that cut a script into blocks and an ATOMS block into atoms
  (pygmx/scripts/cpmd.py:138-139,146), and `clean()`. Their lazy matching is not
  modelled. `Input.FromText` takes the extracted blocks as input: name, body, and for
  ATOMS the (header, body) pairs. The atom regex only admits `\w+` headers; the
  model accepts any atom header.
- The `Script` base class (`pygmx/scripts/base.py` is not part of this model). Its
  `params()`, `hasparam` and its handling of `getattr`/`setattr` are not shown. The
  model stores attributes in an insertion-ordered map under their exact names;
  `checkSection` is left out with it.
- `Coords.ToCoords`: the lookup `self.mimic.overlaps` is kept abstract; the OVERLAPS
  text is a parameter. The floating-point conversion with `bohr_rad` is not modelled,
  nor a `float()` failure on a non-numeric coordinate, so coordinates stay text. The
  pandas DataFrame, `MPT.fromFile`, the `mpt[ids]` merge, `pdb.writeFile` and
  `_global.host.write` are external libraries, parsers and I/O. The model stops at
  the ids paired with their rows, once the extension has selected the pdb writer.
- `Inputs.FieldText`: `str()` of an OrderedDict written under a name other than ATOMS
  is Python's repr-like text. The model reports that case as `Unprintable`.
- Aliasing: atoms are values inside the Input's attribute map, so two Inputs sharing
  one `Atom` object are not modelled. `Atom.__str__` is modelled on its own object
  by `Atoms.Atom.ToText`. `Input.__str__` applies the same normalisation to the atom
  values it writes.
- `PyStr`: `str.isnumeric`, `str.upper` and `str.lower` are modelled on ASCII
  characters only. Unicode digits and case mappings are not modelled.
- `Atoms.ParseAtom`: coordinates are kept as the words of each line. `re.findall`'s
  `.` is modelled as "any character but \n", which is what it matches by default.

- Sections.RoundTrip: holds only for plain parameters, because the code does not
  round-trip the others. A name not in written form is read back under its written
  form, and a non-numeric value line is read back as a flag of its own.

## Findings

| source | as written | input that shows it | evidently intended | confidence | as-written member | corrected member |
|---|---|---|---|---|---|---|
| pygmx/scripts/cpmd.py:63-68 | the OVERLAPS branch accepts any integer count n and moves the cursor by n + 1, then by 1; for n <= -2 the cursor does not move forward | a section body whose lines are `OVERLAPS` then `-2`: the cursor returns to 0 with the same section, forever | the cursor must move forward: a count below -1 is refused and the corrected pass fails with NegativeCount; -1, which moves the cursor one line on with an empty value, is kept | not executed | Sections.OverlapsPassAsWritten (shown by Sections.NegativeCountLoopsForever) | Sections.ScanStep (agrees with the code for every count >= -1, by Sections.ScanStepMatchesAsWritten and Sections.MinusOneCountIsEmpty) |
