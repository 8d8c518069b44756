/**
  The numeric test Section._chknumeric (pygmx/scripts/cpmd.py): the heuristic
  the section scanner uses to tell a parameter's value line from a flag line.
 */
module Numeric {
  import opened PyStr

  /** str.isnumeric(), on ASCII digits. */
  predicate IsNumeric(s: string) {
    s != [] && forall c | c in s :: IsDigit(c)
  }

  /** s.replace('.', '').replace('-', '').isnumeric() */
  predicate NumericWithoutDotsDashes(s: string) {
    IsNumeric(ReplaceAll(ReplaceAll(s, ".", ""), "-", ""))
  }

  /**
    Section._chknumeric: a text holding one word is checked whole (surrounding
    whitespace included); otherwise every word is checked on its own, so a text
    with no word at all passes.
   */
  predicate ChkNumeric(s: string)
    decreases |s|, 1
  {
    var words := Words(s);
    if |words| == 1 then NumericWithoutDotsDashes(s)
    else AllNumeric(words, |s|)
  }

  /** The loop of Section._chknumeric over the words, each shorter than bound. */
  predicate AllNumeric(words: seq<string>, bound: nat)
    requires forall w | w in words :: |w| < bound
    decreases bound, 0, |words|
  {
    words == [] || (ChkNumeric(words[0]) && AllNumeric(words[1..], bound))
  }

  lemma {:induction false} AllNumericEach(words: seq<string>, bound: nat)
    requires forall w | w in words :: |w| < bound
    ensures AllNumeric(words, bound) <==> forall w | w in words :: ChkNumeric(w)
  {
    if words != [] {
      var rest := words[1..];
      assert forall w | w in rest :: w in words;
      AllNumericEach(rest, bound);
      assert AllNumeric(words, bound) == (ChkNumeric(words[0]) && AllNumeric(rest, bound));
      assert words[0] in words;
      assert forall w | w in words :: w == words[0] || w in rest by {
        assert words == [words[0]] + rest;
      }
    }
  }

  /** What the test accepts in a word: digits, dots and dashes, at least one digit. */
  predicate NumericWord(w: string) {
    && (exists c | c in w :: IsDigit(c))
    && (forall c | c in w :: IsDigit(c) || c == '.' || c == '-')
  }

  lemma DotsDashesGone(s: string)
    ensures forall c :: c in ReplaceAll(ReplaceAll(s, ".", ""), "-", "") <==> c in s && c != '.' && c != '-'
  {
    DeleteCharMembers(s, '.');
    DeleteCharMembers(ReplaceAll(s, ".", ""), '-');
  }

  /** One word is numeric iff it is digits, dots and dashes with at least one digit. */
  lemma ChkNumericWord(w: string)
    requires IsToken(w)
    ensures ChkNumeric(w) <==> NumericWord(w)
  {
    WordsOfToken(w);
    DotsDashesGone(w);
    var r := ReplaceAll(ReplaceAll(w, ".", ""), "-", "");
    if NumericWord(w) {
      var d :| d in w && IsDigit(d);
      assert d in r;
    }
    if IsNumeric(r) {
      assert r[0] in r;
    }
  }

  /**
    A text of several words, or of none, is numeric iff each of its words is;
    so the empty text and a text of whitespace only are numeric.
   */
  lemma ChkNumericWords(s: string)
    requires |Words(s)| != 1
    ensures ChkNumeric(s) <==> forall w | w in Words(s) :: NumericWord(w)
  {
    if Words(s) != [] { AllNumericEach(Words(s), |s|); }
    forall w | w in Words(s) ensures ChkNumeric(w) <==> NumericWord(w) {
      ChkNumericWord(w);
    }
  }

  /** One word with whitespace around it is not numeric: the whitespace is checked too. */
  lemma PaddedWordNotNumeric(s: string)
    requires |Words(s)| == 1 && s != []
    requires IsSpace(s[0]) || IsSpace(s[|s| - 1])
    ensures !ChkNumeric(s)
  {
    DotsDashesGone(s);
    var c := if IsSpace(s[0]) then s[0] else s[|s| - 1];
    assert c in s;
    assert c in ReplaceAll(ReplaceAll(s, ".", ""), "-", "");
  }

  /** A text that starts with a character other than whitespace, digit, dot or dash is not numeric. */
  lemma LeadingLetterNotNumeric(s: string)
    requires s != [] && !IsSpace(s[0]) && !IsDigit(s[0]) && s[0] != '.' && s[0] != '-'
    ensures !ChkNumeric(s)
  {
    FirstWordStart(s);
    var w := Words(s)[0];
    assert w in Words(s);
    if |Words(s)| == 1 {
      DotsDashesGone(s);
      assert s[0] in s;
      assert s[0] in ReplaceAll(ReplaceAll(s, ".", ""), "-", "");
    } else {
      ChkNumericWord(w);
      assert w[0] in w;
    }
  }
}
