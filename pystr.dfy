/**
  The Python string operations the script reader is built from: str.split(),
  str.splitlines(), str.strip(), str.replace(), str.upper()/lower(), "\n".join(),
  int() and decimal formatting of a count. Characters are Unicode scalar values;
  case mapping and digits are the ASCII ones.
 */
module PyStr {
  import opened Outcomes

  /** The characters Python's str.split() and str.strip() treat as whitespace. */
  predicate IsSpace(c: char) {
    c == ' ' || ('\t' <= c <= '\r') || ('\U{1c}' <= c <= '\U{1f}')
    || c == '\U{85}' || c == '\U{a0}' || c == '\U{1680}'
    || ('\U{2000}' <= c <= '\U{200a}') || c == '\U{2028}' || c == '\U{2029}'
    || c == '\U{202f}' || c == '\U{205f}' || c == '\U{3000}'
  }

  /** The characters at which Python's str.splitlines() ends a line. */
  predicate IsLineBreak(c: char) {
    ('\n' <= c <= '\r') || ('\U{1c}' <= c <= '\U{1e}')
    || c == '\U{85}' || c == '\U{2028}' || c == '\U{2029}'
  }

  predicate IsDigit(c: char) { '0' <= c <= '9' }

  predicate NoSpace(s: string) { forall c | c in s :: !IsSpace(c) }

  predicate AllSpace(s: string) { forall c | c in s :: IsSpace(c) }

  predicate NoLineBreak(s: string) { forall c | c in s :: !IsLineBreak(c) }

  /** A word as str.split() returns it: non-empty, without whitespace. */
  predicate IsToken(t: string) { t != [] && NoSpace(t) }

  // ---------------------------------------------------------------- split()

  /** Length of the longest prefix of s without whitespace. */
  function TokenLen(s: string): (k: nat)
    ensures k <= |s|
    ensures forall j | 0 <= j < k :: !IsSpace(s[j])
    ensures k < |s| ==> IsSpace(s[k])
  {
    if s == [] || IsSpace(s[0]) then 0 else 1 + TokenLen(s[1..])
  }

  /** str.split() with no separator: the maximal runs of non-whitespace, in order. */
  function Words(s: string): (r: seq<string>)
    ensures forall t | t in r :: IsToken(t) && |t| <= |s|
    ensures |r| >= 2 ==> forall t | t in r :: |t| < |s|
    decreases |s|
  {
    if s == [] then []
    else if IsSpace(s[0]) then Words(s[1..])
    else
      var k := TokenLen(s);
      assert k >= 1;
      [s[..k]] + Words(s[k..])
  }

  lemma {:induction false} TokenLenOf(t: string, s: string)
    requires NoSpace(t)
    requires s == [] || IsSpace(s[0])
    ensures TokenLen(t + s) == |t|
  {
    if t == [] {
      assert t + s == s;
    } else {
      assert t[0] in t;
      assert (t + s)[1..] == t[1..] + s;
      TokenLenOf(t[1..], s);
    }
  }

  /** Leading whitespace does not change the words of a text. */
  lemma {:induction false} WordsAfterSpace(sp: string, s: string)
    requires AllSpace(sp)
    ensures Words(sp + s) == Words(s)
  {
    if sp == [] {
      assert sp + s == s;
    } else {
      assert sp[0] in sp;
      assert (sp + s)[1..] == sp[1..] + s;
      WordsAfterSpace(sp[1..], s);
    }
  }

  /** A word followed by whitespace (or nothing) is the first word. */
  lemma WordsOfTokenThen(t: string, s: string)
    requires IsToken(t)
    requires s == [] || IsSpace(s[0])
    ensures Words(t + s) == [t] + Words(s)
  {
    TokenLenOf(t, s);
    assert t[0] in t;
    assert (t + s)[0] == t[0];
    assert (t + s)[..|t|] == t;
    assert (t + s)[|t|..] == s;
  }

  /** A single word splits into itself. */
  lemma WordsOfToken(t: string)
    requires IsToken(t)
    ensures Words(t) == [t]
  {
    WordsOfTokenThen(t, []);
    assert t + [] == t;
  }

  /** The first word of a text that starts with a non-space begins with that character. */
  lemma FirstWordStart(s: string)
    requires s != [] && !IsSpace(s[0])
    ensures Words(s) != [] && Words(s)[0][0] == s[0]
  {
  }

  // ----------------------------------------------------------- splitlines()

  /** Length of the longest prefix of s without a line break. */
  function LineLen(s: string): (k: nat)
    ensures k <= |s|
    ensures forall j | 0 <= j < k :: !IsLineBreak(s[j])
    ensures k < |s| ==> IsLineBreak(s[k])
  {
    if s == [] || IsLineBreak(s[0]) then 0 else 1 + LineLen(s[1..])
  }

  /** str.splitlines(): lines without their terminators; "\r\n" ends one line. */
  function SplitLines(s: string): (r: seq<string>)
    ensures forall l | l in r :: NoLineBreak(l)
    decreases |s|
  {
    if s == [] then []
    else
      var k := LineLen(s);
      if k == |s| then [s]
      else
        var skip := if s[k] == '\r' && k + 1 < |s| && s[k + 1] == '\n' then 2 else 1;
        [s[..k]] + SplitLines(s[k + skip..])
  }

  /** Every line followed by "\n", as a writer that ends each line emits them. */
  function Terminated(ls: seq<string>): string {
    if ls == [] then "" else ls[0] + "\n" + Terminated(ls[1..])
  }

  /** "\n".join(ls). */
  function JoinLines(ls: seq<string>): string {
    if ls == [] then "" else if |ls| == 1 then ls[0] else ls[0] + "\n" + JoinLines(ls[1..])
  }

  /** Concatenation regrouped. */
  lemma Regroup<T>(a: seq<T>, b: seq<T>, c: seq<T>)
    ensures a + (b + c) == (a + b) + c
  {
  }

  /** Lines without line breaks, put together, are still without line breaks. */
  lemma PlainAppend(a: seq<string>, b: seq<string>)
    requires forall l | l in a :: NoLineBreak(l)
    requires forall l | l in b :: NoLineBreak(l)
    ensures forall l | l in a + b :: NoLineBreak(l)
  {
  }

  lemma TerminatedTwo(a: string, b: string)
    ensures Terminated([a]) == a + "\n"
    ensures Terminated([a, b]) == a + "\n" + b + "\n"
  {
    assert [a][1..] == [] && [b][1..] == [] && [a, b][1..] == [b];
    assert Terminated([b]) == b + "\n" + "";
    assert Terminated([a, b]) == a + "\n" + (b + "\n");
  }

  lemma {:induction false} TerminatedAppend(a: seq<string>, b: seq<string>)
    ensures Terminated(a + b) == Terminated(a) + Terminated(b)
  {
    if a == [] {
      assert a + b == b;
    } else {
      assert (a + b)[0] == a[0];
      assert (a + b)[1..] == a[1..] + b;
      TerminatedAppend(a[1..], b);
    }
  }

  /** Joining with "\n" and ending the last line is the same as ending every line. */
  lemma {:induction false} JoinThenTerminate(ls: seq<string>)
    requires ls != []
    ensures JoinLines(ls) + "\n" == Terminated(ls)
  {
    if |ls| > 1 {
      JoinThenTerminate(ls[1..]);
    }
  }

  lemma {:induction false} LineLenOf(l: string, s: string)
    requires NoLineBreak(l)
    requires s != [] && IsLineBreak(s[0])
    ensures LineLen(l + s) == |l|
  {
    if l == [] {
      assert l + s == s;
    } else {
      assert l[0] in l;
      assert (l + s)[1..] == l[1..] + s;
      LineLenOf(l[1..], s);
    }
  }

  /** Writing lines each ended by "\n" and splitting the text gives the lines back. */
  lemma {:induction false} SplitTerminated(ls: seq<string>)
    requires forall l | l in ls :: NoLineBreak(l)
    ensures SplitLines(Terminated(ls)) == ls
  {
    if ls != [] {
      var rest := Terminated(ls[1..]);
      var s := ls[0] + "\n" + rest;
      assert ls[0] in ls;
      LineLenOf(ls[0], "\n" + rest);
      assert s == ls[0] + ("\n" + rest);
      assert s[|ls[0]|] == '\n';
      assert s[..|ls[0]|] == ls[0];
      assert s[|ls[0]| + 1..] == rest;
      SplitTerminated(ls[1..]);
    }
  }

  /** Splitting "\n".join(ls) gives ls back when its last line is not empty. */
  lemma {:induction false} SplitJoined(ls: seq<string>)
    requires ls != [] && ls[|ls| - 1] != []
    requires forall l | l in ls :: NoLineBreak(l)
    ensures SplitLines(JoinLines(ls)) == ls
  {
    if |ls| == 1 {
      assert ls[0] in ls;
      SplitOneLine(ls[0]);
    } else {
      var rest := JoinLines(ls[1..]);
      var s := ls[0] + "\n" + rest;
      assert ls[0] in ls;
      LineLenOf(ls[0], "\n" + rest);
      assert s == ls[0] + ("\n" + rest);
      assert s[|ls[0]|] == '\n';
      assert s[..|ls[0]|] == ls[0];
      assert s[|ls[0]| + 1..] == rest;
      SplitJoined(ls[1..]);
    }
  }

  /** A text without line breaks is one line (or none, when empty). */
  lemma SplitOneLine(l: string)
    requires NoLineBreak(l)
    ensures SplitLines(l) == if l == [] then [] else [l]
  {
    if l != [] {
      LineLenWhole(l);
    }
  }

  lemma {:induction false} LineLenWhole(l: string)
    requires NoLineBreak(l)
    ensures LineLen(l) == |l|
  {
    if l != [] {
      assert l[0] in l;
      assert forall c | c in l[1..] :: c in l;
      LineLenWhole(l[1..]);
    }
  }

  // ---------------------------------------------------------------- strip()

  function StripLeft(s: string): (r: string)
    ensures r == [] || !IsSpace(r[0])
    ensures |r| <= |s| && r == s[|s| - |r|..]
  {
    if s != [] && IsSpace(s[0]) then StripLeft(s[1..]) else s
  }

  function StripRight(s: string): (r: string)
    ensures r == [] || !IsSpace(r[|r| - 1])
    ensures |r| <= |s| && r == s[..|r|]
  {
    if s != [] && IsSpace(s[|s| - 1]) then StripRight(s[..|s| - 1]) else s
  }

  /** str.strip(): s without its leading and trailing whitespace. */
  function Strip(s: string): (r: string)
  {
    StripRight(StripLeft(s))
  }

  lemma StripRightKeepsFirst(s: string)
    requires s != [] && !IsSpace(s[0])
    ensures StripRight(s) != [] && StripRight(s)[0] == s[0]
  {
  }

  /** The result of strip() neither starts nor ends with whitespace. */
  lemma StripShape(s: string)
    ensures var r := Strip(s); r == [] || (!IsSpace(r[0]) && !IsSpace(r[|r| - 1]))
  {
    var l := StripLeft(s);
    if l != [] {
      StripRightKeepsFirst(l);
    }
  }

  /** A text without surrounding whitespace is its own strip(). */
  lemma StripUnpadded(s: string)
    requires s == [] || (!IsSpace(s[0]) && !IsSpace(s[|s| - 1]))
    ensures Strip(s) == s
  {
  }

  /** Whitespace in front of a text is removed by strip(). */
  lemma {:induction false} StripPadded(sp: string, s: string)
    requires AllSpace(sp)
    requires s == [] || (!IsSpace(s[0]) && !IsSpace(s[|s| - 1]))
    ensures Strip(sp + s) == s
  {
    if sp == [] {
      assert sp + s == s;
    } else {
      assert sp[0] in sp;
      assert (sp + s)[1..] == sp[1..] + s;
      StripPadded(sp[1..], s);
    }
  }

  // ------------------------------------------------------------- replace()

  /** Python's s.replace(pat, rep): left-to-right, non-overlapping occurrences. */
  function ReplaceAll(s: string, pat: string, rep: string): string
    requires pat != []
    decreases |s|
  {
    if |s| < |pat| then s
    else if s[..|pat|] == pat then rep + ReplaceAll(s[|pat|..], pat, rep)
    else [s[0]] + ReplaceAll(s[1..], pat, rep)
  }

  /** pat occurs somewhere in s (Python's `pat in s`). */
  predicate Contains(s: string, pat: string)
    decreases |s|
  {
    |pat| <= |s| && (s[..|pat|] == pat || Contains(s[1..], pat))
  }

  /** Replacing a text that does not occur changes nothing. */
  lemma {:induction false} ReplaceAbsent(s: string, pat: string, rep: string)
    requires pat != [] && !Contains(s, pat)
    ensures ReplaceAll(s, pat, rep) == s
  {
    if |s| >= |pat| {
      ReplaceAbsent(s[1..], pat, rep);
      assert [s[0]] + s[1..] == s;
    }
  }

  /** Deleting one character keeps exactly the other characters. */
  lemma {:induction false} DeleteCharMembers(s: string, x: char)
    ensures forall c :: c in ReplaceAll(s, [x], "") <==> c in s && c != x
  {
    if |s| >= 1 {
      DeleteCharMembers(s[1..], x);
      assert s == [s[0]] + s[1..];
      if s[..1] == [x] {
        assert s[1..] == s[|[x]|..];
      }
    }
  }

  /** A text that starts with the pattern loses that occurrence first. */
  lemma ReplaceLeading(pat: string, rest: string, rep: string)
    requires pat != []
    ensures ReplaceAll(pat + rest, pat, rep) == rep + ReplaceAll(rest, pat, rep)
  {
    assert (pat + rest)[..|pat|] == pat;
    assert (pat + rest)[|pat|..] == rest;
  }

  /**
    A pattern without a line break is not found across a line break, so a first
    line that does not contain it is kept as it is.
   */
  lemma {:induction false} ReplaceBeforeBreak(x: string, t: string, pat: string, rep: string)
    requires pat != [] && '\n' !in pat && !Contains(x, pat)
    ensures ReplaceAll(x + ("\n" + t), pat, rep) == x + ("\n" + ReplaceAll(t, pat, rep))
    decreases |x|
  {
    var s := x + ("\n" + t);
    NoMatchBeforeBreak(x, t, pat);
    if x == [] {
      assert s == "\n" + t;
      if |s| >= |pat| {
        assert s[0] == '\n';
        assert s[1..] == t;
      } else {
        assert |t| < |pat| && ReplaceAll(t, pat, rep) == t;
      }
    } else {
      assert !Contains(x[1..], pat);
      if |s| >= |pat| {
        assert s[1..] == x[1..] + ("\n" + t);
        ReplaceBeforeBreak(x[1..], t, pat, rep);
        assert [x[0]] + x[1..] == x;
      } else {
        assert |t| < |pat| && ReplaceAll(t, pat, rep) == t;
      }
    }
  }

  /** The pattern does not start the text. */
  lemma NoMatchBeforeBreak(x: string, t: string, pat: string)
    requires pat != [] && '\n' !in pat && !Contains(x, pat)
    ensures var s := x + ("\n" + t); |s| < |pat| || s[..|pat|] != pat
  {
    var s := x + ("\n" + t);
    if |pat| <= |x| {
      assert x[..|pat|] == s[..|pat|];
    } else if |pat| <= |s| {
      assert s[|x|] == '\n';
      assert pat[|x|] != '\n';
    }
  }

  /** Removing a character from a text that ends in it removes that last one too. */
  lemma {:induction false} ReplaceCharAppend(s: string, c: char, rep: string)
    ensures ReplaceAll(s + [c], [c], rep) == ReplaceAll(s, [c], rep) + rep
    decreases |s|
  {
    if s == [] {
      ReplaceLeading([c], [], rep);
      assert [c] + [] == [c];
    } else {
      var u := s + [c];
      assert u[1..] == s[1..] + [c];
      assert u[..1] == s[..1];
      ReplaceCharAppend(s[1..], c, rep);
      if s[..1] == [c] {
        assert u[|[c]|..] == u[1..];
        assert s[|[c]|..] == s[1..];
      }
    }
  }

  /** Deleting a character other than the first keeps the first. */
  lemma DeleteCharKeepsFirst(s: string, x: char)
    requires s != [] && s[0] != x
    ensures ReplaceAll(s, [x], "") != [] && ReplaceAll(s, [x], "")[0] == s[0]
  {
    assert s[..1] != [x];
  }

  /** Every character of a replacement's result comes from the text or from the replacement. */
  lemma {:induction false} ReplaceMembers(s: string, pat: string, rep: string)
    requires pat != []
    ensures forall c | c in ReplaceAll(s, pat, rep) :: c in s || c in rep
  {
    if |s| >= |pat| {
      ReplaceMembers(s[|pat|..], pat, rep);
      ReplaceMembers(s[1..], pat, rep);
      assert forall c | c in s[1..] :: c in s;
      assert forall c | c in s[|pat|..] :: c in s;
    }
  }

  /** A one-character pattern occurs exactly when the character does. */
  lemma {:induction false} ContainsChar(s: string, x: char)
    ensures Contains(s, [x]) <==> x in s
  {
    if s != [] {
      ContainsChar(s[1..], x);
      assert s == [s[0]] + s[1..];
    }
  }

  /** No two dashes stand next to each other. */
  predicate NoDoubleDash(s: string) {
    forall i | 0 <= i < |s| - 1 :: s[i] == '-' ==> s[i + 1] != '-'
  }

  lemma {:induction false} NoDoubleDashNotContains(s: string)
    requires NoDoubleDash(s)
    ensures !Contains(s, "--")
  {
    if |s| >= 2 {
      assert s[..2] != "--" by {
        if s[0] == '-' { assert s[1] != '-'; }
      }
      NoDoubleDashNotContains(s[1..]);
    }
  }

  /** s.replace('--', ' ') leaves no two dashes side by side. */
  lemma {:induction false} CollapseDashes(s: string)
    ensures NoDoubleDash(ReplaceAll(s, "--", " "))
    ensures s != [] && s[0] != '-' ==> ReplaceAll(s, "--", " ") != [] && ReplaceAll(s, "--", " ")[0] == s[0]
  {
    var r := ReplaceAll(s, "--", " ");
    if |s| < 2 {
    } else if s[..2] == "--" {
      CollapseDashes(s[2..]);
      assert r == " " + ReplaceAll(s[2..], "--", " ");
    } else {
      CollapseDashes(s[1..]);
      var t := ReplaceAll(s[1..], "--", " ");
      assert r == [s[0]] + t;
      if s[0] == '-' {
        assert s[1] != '-' by { assert s[..2] == [s[0], s[1]]; }
        assert t != [] && t[0] == s[1];
      }
      assert NoDoubleDash(r) by {
        forall i | 0 <= i < |r| - 1 && r[i] == '-' ensures r[i + 1] != '-' {
          if i > 0 { assert r[i] == t[i - 1] && r[i + 1] == t[i]; }
        }
      }
    }
  }

  // ------------------------------------------------------- upper() / lower()

  function UpperChar(c: char): char {
    if 'a' <= c <= 'z' then (c as int - 32) as char else c
  }

  function LowerChar(c: char): char {
    if 'A' <= c <= 'Z' then (c as int + 32) as char else c
  }

  /** str.upper() on ASCII letters. */
  function Upper(s: string): (r: string)
    ensures |r| == |s|
    ensures forall i | 0 <= i < |s| :: r[i] == UpperChar(s[i])
  {
    seq(|s|, i requires 0 <= i < |s| => UpperChar(s[i]))
  }

  /** str.lower() on ASCII letters. */
  function Lower(s: string): (r: string)
    ensures |r| == |s|
    ensures forall i | 0 <= i < |s| :: r[i] == LowerChar(s[i])
  {
    seq(|s|, i requires 0 <= i < |s| => LowerChar(s[i]))
  }

  /** Upper-casing twice is upper-casing once. */
  lemma UpperIdempotent(s: string)
    ensures Upper(Upper(s)) == Upper(s)
  {
  }

  /** Upper-casing introduces no line break. */
  lemma UpperNoLineBreak(s: string)
    requires NoLineBreak(s)
    ensures NoLineBreak(Upper(s))
  {
    forall c | c in Upper(s) ensures !IsLineBreak(c) {
      var i :| 0 <= i < |s| && Upper(s)[i] == c;
      assert s[i] in s;
    }
  }

  // ------------------------------------------------------------------ int()

  function DigitValue(c: char): nat
    requires IsDigit(c)
  {
    c as int - '0' as int
  }

  function DigitChar(d: nat): (c: char)
    requires d < 10
    ensures IsDigit(c) && DigitValue(c) == d
  {
    ('0' as int + d) as char
  }

  /** Digits with single underscores between them, as int() accepts them. */
  predicate DigitGroups(s: string) {
    && s != []
    && IsDigit(s[0]) && IsDigit(s[|s| - 1])
    && (forall i | 0 <= i < |s| :: IsDigit(s[i]) || s[i] == '_')
    && (forall i | 0 <= i < |s| - 1 :: s[i] == '_' ==> s[i + 1] != '_')
  }

  /** The number written by digits and underscores (underscores skipped). */
  function GroupsValue(s: string): nat
    requires forall i | 0 <= i < |s| :: IsDigit(s[i]) || s[i] == '_'
  {
    if s == [] then 0
    else if s[|s| - 1] == '_' then GroupsValue(s[..|s| - 1])
    else GroupsValue(s[..|s| - 1]) * 10 + DigitValue(s[|s| - 1])
  }

  /** int(s) for a str: surrounding whitespace, an optional sign, digit groups. */
  function ParseInt(s: string): Option<int> {
    var t := Strip(s);
    if t != [] && (t[0] == '+' || t[0] == '-') then
      var body := t[1..];
      if DigitGroups(body) then Some(if t[0] == '-' then 0 - GroupsValue(body) as int else GroupsValue(body) as int)
      else None
    else if DigitGroups(t) then Some(GroupsValue(t))
    else None
  }

  /** The decimal digits of n, as str(n) or an f-string writes them. */
  function Decimal(n: nat): (r: string)
    ensures r != [] && forall i | 0 <= i < |r| :: IsDigit(r[i])
  {
    if n < 10 then [DigitChar(n)] else Decimal(n / 10) + [DigitChar(n % 10)]
  }

  lemma {:induction false} DecimalValue(n: nat)
    ensures GroupsValue(Decimal(n)) == n
  {
    if n >= 10 {
      var d := Decimal(n);
      assert d[..|d| - 1] == Decimal(n / 10);
      DecimalValue(n / 10);
    }
  }

  /** int() reads back what Decimal writes, whatever whitespace precedes it. */
  lemma ParseDecimal(sp: string, n: nat)
    requires AllSpace(sp)
    ensures ParseInt(sp + Decimal(n)) == Some(n)
  {
    var d := Decimal(n);
    StripPadded(sp, d);
    DecimalValue(n);
  }

  /** A decimal numeral contains no whitespace and no line break. */
  lemma DecimalPlain(n: nat)
    ensures IsToken(Decimal(n)) && NoLineBreak(Decimal(n))
  {
    var d := Decimal(n);
    forall c | c in d ensures IsDigit(c) {
      var i :| 0 <= i < |d| && d[i] == c;
    }
  }
}
