/**
 * A printer for selection trees and the proof that the parser of module
 * `Asl` inverts it: every tree the parser can produce (`IsOrLevel`) is
 * printed to text that parses back to the same tree. Together with the
 * parser's own postconditions (every result is `IsOrLevel`), this pins down
 * precedence (`or` loosest, then `and`, then `not`), the flat n-ary shape of
 * `And`/`Or`, the nesting of `Not` and the preservation of `Braket`.
 */
module AslPrint {
  import opened Asl

  function ShowDigit(d: nat): (c: char)
    requires d < 10
    ensures IsDigit(c) && DigitValue(c) == d
  {
    ('0' as int + d) as char
  }

  /** Decimal notation without leading zeros. */
  function ShowNat(n: nat): (r: string)
    ensures |r| > 0 && forall i :: 0 <= i < |r| ==> IsDigit(r[i])
    ensures DigitsValue(r) == n
  {
    if n < 10 then [ShowDigit(n)] else ShowNat(n / 10) + [ShowDigit(n % 10)]
  }

  /** ` w1 w2 ...`: each word preceded by one blank. */
  function SpacedWords(ws: seq<string>): string
  {
    if ws == [] then "" else " " + ws[0] + SpacedWords(ws[1..])
  }

  function SpacedNats(ns: seq<nat>): string
  {
    if ns == [] then "" else " " + ShowNat(ns[0]) + SpacedNats(ns[1..])
  }

  predicate IsRun(ns: seq<nat>)
  {
    forall i :: 0 <= i < |ns| ==> ns[i] == ns[0] + i
  }

  /** A number list: a run of two or more as `a to b`, the empty list as the
      empty range `1 to 0`, anything else number by number. */
  function ShowNumbers(ns: seq<nat>): string
  {
    if ns == [] then "1 to 0"
    else if |ns| >= 2 && IsRun(ns) then ShowNat(ns[0]) + " to " + ShowNat(ns[|ns| - 1])
    else ShowNat(ns[0]) + SpacedNats(ns[1..])
  }

  function ShowWords(ws: seq<string>): string
  {
    if ws == [] then "" else ws[0] + SpacedWords(ws[1..])
  }

  function Show(e: Selection): string
  {
    match e
    case All => "all"
    case Protein => "protein"
    case Water => "water"
    case Ion => "ion"
    case Backbone => "backbone"
    case Sidechain => "sidechain"
    case ResName(ns) => "resname " + ShowWords(ns)
    case Name(ns) => "name " + ShowWords(ns)
    case ResId(ids) => "resid " + ShowNumbers(ids)
    case Index(ids) => "index " + ShowNumbers(ids)
    case Not(x) => "not " + Show(x)
    case And(cs) => if cs == [] then "" else Show(cs[0]) + ShowSuffix(cs[1..], " and ")
    case Or(cs) => if cs == [] then "" else Show(cs[0]) + ShowSuffix(cs[1..], " or ")
    case Braket(x) => "(" + Show(x) + ")"
  }

  /** `sep e1 sep e2 ...`. */
  function ShowSuffix(cs: seq<Selection>, sep: string): string
  {
    if cs == [] then "" else sep + Show(cs[0]) + ShowSuffix(cs[1..], sep)
  }

  // ---------------------------------------------------------------------
  // What may follow a printed tree at each level of the grammar

  /** Only blanks (possibly none). */
  predicate Blanks(t: string) { forall i :: 0 <= i < |t| ==> IsSpace(t[i]) }

  /** After a whole expression: trailing blanks or a closing bracket. */
  predicate EndsOr(t: string) { Blanks(t) || t[0] == ')' }

  /** After an and-level operand: also the next `or`. */
  predicate EndsAnd(t: string) { EndsOr(t) || HasPrefix(t, " or ") }

  /** After a not-level operand: also the next `and`. */
  predicate EndsNot(t: string) { EndsAnd(t) || HasPrefix(t, " and ") }

  // ---------------------------------------------------------------------
  // Regrouping concatenations (kept apart so that the parser's definitions
  // are not in scope while the solver proves them)

  lemma Assoc(a: string, b: string, c: string)
    ensures a + b + c == a + (b + c)
  {
  }

  lemma Assoc4(a: string, b: string, c: string, d: string)
    ensures a + b + c + d == a + (b + c + d)
  {
  }

  lemma ToSplit(w: string)
    ensures " to " + w == " " + ("to " + w)
  {
  }

  // ---------------------------------------------------------------------
  // Character-level facts

  lemma {:induction false} SpanConcat(a: string, b: string, k: CharClass)
    requires forall i :: 0 <= i < |a| ==> InClass(a[i], k)
    requires b == [] || !InClass(b[0], k)
    ensures Span(a + b, k) == |a|
    ensures (a + b)[..|a|] == a && (a + b)[|a|..] == b
  {
    if a != [] {
      assert (a + b)[1..] == a[1..] + b;
      SpanConcat(a[1..], b, k);
    }
  }

  lemma SkipNoSpace(u: string)
    requires u == [] || !IsSpace(u[0])
    ensures SkipSpaces(u) == u
    ensures SkipSpaces(" " + u) == u
  {
    assert (" " + u)[1..] == u;
  }

  lemma {:induction false} BlanksSkip(t: string)
    requires Blanks(t)
    ensures SkipSpaces(t) == []
  {
    if t != [] { BlanksSkip(t[1..]); }
  }

  lemma StopChar(t: string)
    requires EndsNot(t)
    ensures t == [] || (!IsAlnum(t[0]) && !IsDigit(t[0]))
  {
    if HasPrefix(t, " or ") || HasPrefix(t, " and ") {
      assert t[0] == ' ';
    }
  }

  lemma StopFacts(t: string)
    requires EndsNot(t)
    ensures t == [] || (!IsAlnum(t[0]) && !IsDigit(t[0]))
    ensures StartsWithSpace(t) ==> SkipSpaces(t) == [] || HasPrefix(SkipSpaces(t), "or ") || HasPrefix(SkipSpaces(t), "and ")
    ensures StartsWithSpace(t) && !Blanks(t) ==> SkipSpaces(t) == t[1..] && SkipSpaces(t) != []
    ensures StartsWithSpace(t) && HasPrefix(SkipSpaces(t), "and ") ==> !EndsAnd(t)
  {
    if Blanks(t) {
      BlanksSkip(t);
    } else if HasPrefix(t, " or ") {
      var u := t[1..];
      assert t[..4] == " or ";
      assert u[..3] == t[..4][1..];
      assert t == " " + u;
      SkipNoSpace(u);
      NotPrefixAt(u, "and ", 0);
    } else if HasPrefix(t, " and ") {
      var u := t[1..];
      assert t[..5] == " and ";
      assert u[..4] == t[..5][1..];
      assert t == " " + u;
      SkipNoSpace(u);
      assert !Blanks(t) by { assert !IsSpace(t[1]); }
      NotPrefixAt(t, " or ", 1);
    }
  }

  /** A string that differs from `w` at position `k` does not start with `w`. */
  lemma NotPrefixAt(s: string, w: string, k: nat)
    requires k < |s| && k < |w| && s[k] != w[k]
    ensures !HasPrefix(s, w)
  {
  }

  lemma UsizeRoundTrip(n: nat, t: string)
    requires n <= UsizeMax
    requires t == [] || !IsDigit(t[0])
    ensures ParseUsize(ShowNat(n) + t) == Done(n, t)
  {
    SpanConcat(ShowNat(n), t, Digit);
  }

  /** The end of the text, or a connective followed by a blank, is neither
      an identifier, a number, nor the start of `to`. */
  lemma ConnectiveFacts(u: string)
    requires u == [] || HasPrefix(u, "or ") || HasPrefix(u, "and ")
    ensures ParseIdent(u) == Failed(Backtrack)
    ensures ParseUsize(u) == Failed(Backtrack)
    ensures !HasPrefix(u, "to")
  {
    if HasPrefix(u, "or ") {
      assert u == "or" + u[2..];
      SpanConcat("or", u[2..], Alnum);
    } else if HasPrefix(u, "and ") {
      assert u == "and" + u[3..];
      SpanConcat("and", u[3..], Alnum);
    }
  }

  lemma MoreIdentsStop(t: string)
    requires EndsNot(t)
    ensures ParseMoreIdents(t) == Done([], t)
  {
    StopFacts(t);
    if StartsWithSpace(t) { ConnectiveFacts(SkipSpaces(t)); }
  }

  lemma MoreNumbersStop(t: string)
    requires EndsNot(t)
    ensures ParseMoreNumbers(t) == Done([], t)
    ensures ParseToClause(t) == Failed(Backtrack)
  {
    StopFacts(t);
    if StartsWithSpace(t) { ConnectiveFacts(SkipSpaces(t)); }
  }

  lemma AndTailStop(t: string)
    requires EndsAnd(t)
    ensures ParseAndTail(t) == Done([], t)
  {
    AndTailBlocked(t);
  }

  /** After an and-level operand, no ` and` follows. */
  lemma AndTailBlocked(t: string)
    requires EndsAnd(t)
    ensures !StartsWithSpace(t) || !HasPrefix(SkipSpaces(t), "and")
  {
    StopFacts(t);
    var u := SkipSpaces(t);
    if StartsWithSpace(t) && u != [] {
      assert u[0] == u[..3][0] == 'o';
      NotPrefixAt(u, "and", 0);
    }
  }

  lemma OrTailStop(t: string)
    requires EndsOr(t)
    ensures ParseOrTail(t) == Done([], t)
  {
  }

  lemma OrTailEmpty(t: string)
    requires EndsOr(t)
    ensures ParseOrTail(ShowSuffix([], " or ") + t) == Done([], t)
  {
    assert ShowSuffix([], " or ") + t == t;
    OrTailStop(t);
  }

  // ---------------------------------------------------------------------
  // Leaves: identifiers and numbers

  lemma IdentRT(w: string, u: string)
    requires ValidIdent(w)
    requires u == [] || !IsAlnum(u[0])
    ensures ParseIdent(w + u) == Done(w, u)
  {
    SpanConcat(w, u, Alnum);
  }

  /** One round of the identifier loop: a blank, an identifier, and then
      whatever the rest of the loop makes of what follows. */
  lemma MoreIdentsStep(w: string, u: string, ws: seq<string>, t: string)
    requires ValidIdent(w)
    requires u == [] || !IsAlnum(u[0])
    requires ParseMoreIdents(u) == Done(ws, t)
    ensures ParseMoreIdents(" " + (w + u)) == Done([w] + ws, t)
  {
    SkipNoSpace(w + u);
    SpaceLead(w + u);
    IdentRT(w, u);
  }

  lemma SpacedWordsCons(ws: seq<string>, t: string)
    requires ws != []
    ensures SpacedWords(ws) + t == " " + (ws[0] + (SpacedWords(ws[1..]) + t))
  {
  }

  /** What follows an identifier of the loop is never alphanumeric. */
  lemma SpacedWordsFollow(ws: seq<string>, t: string)
    requires EndsNot(t)
    ensures SpacedWords(ws) + t == [] || !IsAlnum((SpacedWords(ws) + t)[0])
  {
    if ws == [] {
      assert SpacedWords(ws) + t == t;
      StopChar(t);
    } else {
      SpacedWordsCons(ws, t);
    }
  }

  lemma {:induction false} MoreIdentsRT(ws: seq<string>, t: string)
    requires forall i :: 0 <= i < |ws| ==> ValidIdent(ws[i])
    requires EndsNot(t)
    ensures ParseMoreIdents(SpacedWords(ws) + t) == Done(ws, t)
  {
    if ws == [] {
      assert SpacedWords(ws) + t == t;
      MoreIdentsStop(t);
    } else {
      MoreIdentsRT(ws[1..], t);
      SpacedWordsFollow(ws[1..], t);
      SpacedWordsCons(ws, t);
      MoreIdentsStep(ws[0], SpacedWords(ws[1..]) + t, ws[1..], t);
      assert [ws[0]] + ws[1..] == ws;
    }
  }

  lemma IdentListStep(w: string, u: string, ws: seq<string>, t: string)
    requires ValidIdent(w)
    requires u == [] || !IsAlnum(u[0])
    requires ParseMoreIdents(u) == Done(ws, t)
    ensures ParseIdentList(w + u) == Done([w] + ws, t)
  {
    IdentRT(w, u);
  }

  lemma IdentListRT(ws: seq<string>, t: string)
    requires |ws| > 0 && forall i :: 0 <= i < |ws| ==> ValidIdent(ws[i])
    requires EndsNot(t)
    ensures ParseIdentList(ShowWords(ws) + t) == Done(ws, t)
  {
    MoreIdentsRT(ws[1..], t);
    SpacedWordsFollow(ws[1..], t);
    assert ShowWords(ws) + t == ws[0] + (SpacedWords(ws[1..]) + t);
    IdentListStep(ws[0], SpacedWords(ws[1..]) + t, ws[1..], t);
    assert [ws[0]] + ws[1..] == ws;
  }

  /** One round of the number loop. */
  lemma MoreNumbersStep(n: nat, u: string, ns: seq<nat>, t: string)
    requires n <= UsizeMax
    requires u == [] || !IsDigit(u[0])
    requires ParseMoreNumbers(u) == Done(ns, t)
    ensures ParseMoreNumbers(" " + (ShowNat(n) + u)) == Done([n] + ns, t)
  {
    SkipNoSpace(ShowNat(n) + u);
    UsizeRoundTrip(n, u);
  }

  lemma SpacedNatsCons(ns: seq<nat>, t: string)
    requires ns != []
    ensures SpacedNats(ns) + t == " " + (ShowNat(ns[0]) + (SpacedNats(ns[1..]) + t))
  {
  }

  /** What follows a number of the loop is never a digit. */
  lemma SpacedNatsFollow(ns: seq<nat>, t: string)
    requires EndsNot(t)
    ensures SpacedNats(ns) + t == [] || !IsDigit((SpacedNats(ns) + t)[0])
  {
    if ns == [] {
      assert SpacedNats(ns) + t == t;
      StopChar(t);
    } else {
      SpacedNatsCons(ns, t);
    }
  }

  lemma {:induction false} MoreNumbersRT(ns: seq<nat>, t: string)
    requires forall i :: 0 <= i < |ns| ==> ns[i] <= UsizeMax
    requires EndsNot(t)
    ensures ParseMoreNumbers(SpacedNats(ns) + t) == Done(ns, t)
  {
    if ns == [] {
      assert SpacedNats(ns) + t == t;
      MoreNumbersStop(t);
    } else {
      var rest := ns[1..];
      assert forall i :: 0 <= i < |rest| ==> rest[i] <= UsizeMax by {
        forall i | 0 <= i < |rest| ensures rest[i] <= UsizeMax {
          assert rest[i] == ns[i + 1];
        }
      }
      MoreNumbersRT(rest, t);
      MoreNumbersCons(ns, t);
    }
  }

  lemma MoreNumbersCons(ns: seq<nat>, t: string)
    requires ns != [] && ns[0] <= UsizeMax && EndsNot(t)
    requires ParseMoreNumbers(SpacedNats(ns[1..]) + t) == Done(ns[1..], t)
    ensures ParseMoreNumbers(SpacedNats(ns) + t) == Done(ns, t)
  {
    var rest, u := ns[1..], SpacedNats(ns[1..]) + t;
    SpacedNatsFollow(rest, t);
    MoreNumbersStep(ns[0], u, rest, t);
    SpacedNatsCons(ns, t);
    HeadRest(ns);
  }

  lemma HeadRest<T>(xs: seq<T>)
    requires xs != []
    ensures [xs[0]] + xs[1..] == xs
  {
  }

  lemma ToClauseStep(w: string, b: nat, t: string)
    requires w == [] || !IsSpace(w[0])
    requires ParseUsize(w) == Done(b, t)
    ensures ParseToClause(" to " + w) == Done(b, t)
  {
    ToPieces(w);
  }

  /** How ` to w` splits into the steps of the ` to` clause. */
  lemma {:induction false} ToPieces(w: string)
    requires w == [] || !IsSpace(w[0])
    ensures StartsWithSpace(" to " + w) && SkipSpaces(" to " + w) == "to " + w
    ensures HasPrefix("to " + w, "to") && ("to " + w)[2..] == " " + w
    ensures StartsWithSpace(" " + w) && SkipSpaces(" " + w) == w
  {
    ToLead(w);
    ToWord(w);
    SkipNoSpace(w);
    SpaceLead(w);
  }

  lemma {:induction false} ToLead(w: string)
    ensures StartsWithSpace(" to " + w) && SkipSpaces(" to " + w) == "to " + w
  {
    var u := " to " + w;
    var v := "to " + w;
    assert u == " " + v by { ToSplit(w); }
    assert v[0] == 't';
    SkipNoSpace(v);
    SpaceLead(v);
  }

  lemma {:induction false} SpaceLead(v: string)
    ensures StartsWithSpace(" " + v)
  {
    assert (" " + v)[0] == ' ';
  }

  lemma {:induction false} ToWord(w: string)
    ensures HasPrefix("to " + w, "to") && ("to " + w)[2..] == " " + w
  {
    var v := "to " + w;
    assert v[..2] == "to";
    assert v[2..] == " " + w;
  }

  /** The ` to b` clause. */
  lemma ToClauseRT(b: nat, t: string)
    requires b <= UsizeMax
    requires EndsNot(t)
    ensures ParseToClause(" to " + ShowNat(b) + t) == Done(b, t)
  {
    StopChar(t);
    UsizeRoundTrip(b, t);
    Assoc(" to ", ShowNat(b), t);
    ToClauseStep(ShowNat(b) + t, b, t);
  }

  lemma NumbersToStep(s: string, a: nat, u: string, b: nat, t: string)
    requires ParseUsize(s) == Done(a, u)
    requires ParseToClause(u) == Done(b, t)
    ensures ParseNumbers(s) == Done(Range(a, b), t)
  {
  }

  /** `a to b` parses to the inclusive range. */
  lemma ToRT(a: nat, b: nat, t: string)
    requires a <= UsizeMax && b <= UsizeMax
    requires EndsNot(t)
    ensures ParseNumbers(ShowNat(a) + " to " + ShowNat(b) + t) == Done(Range(a, b), t)
  {
    var u := " to " + ShowNat(b) + t;
    Assoc4(ShowNat(a), " to ", ShowNat(b), t);
    StopChar(t);
    UsizeRoundTrip(a, u);
    ToClauseRT(b, t);
    NumbersToStep(ShowNat(a) + u, a, u, b, t);
  }

  lemma RangeOfRun(ns: seq<nat>)
    requires |ns| > 0 && IsRun(ns)
    ensures Range(ns[0], ns[|ns| - 1]) == ns
  {
  }

  lemma NumbersListStep(s: string, a: nat, u: string, ns: seq<nat>, t: string)
    requires ParseUsize(s) == Done(a, u)
    requires ParseToClause(u) == Failed(Backtrack)
    requires ParseMoreNumbers(u) == Done(ns, t)
    ensures ParseNumbers(s) == Done([a] + ns, t)
  {
  }

  /** A number after the blank is not the keyword `to`. */
  lemma ToClauseMisses(x: string, r: string)
    requires |x| > 0 && IsDigit(x[0])
    ensures ParseToClause(" " + (x + r)) == Failed(Backtrack)
  {
    var y := x + r;
    assert y[0] == x[0];
    SkipNoSpace(y);
    NotPrefixAt(y, "to", 0);
  }

  lemma EmptyNumbersText()
    ensures ShowNumbers([]) == ShowNat(1) + " to " + ShowNat(0)
  {
  }

  /** What follows the first number of a list printed number by number. */
  lemma ListFollow(ns: seq<nat>, t: string)
    requires EndsNot(t)
    ensures ParseToClause(SpacedNats(ns) + t) == Failed(Backtrack)
    ensures SpacedNats(ns) + t == [] || !IsDigit((SpacedNats(ns) + t)[0])
  {
    if ns == [] {
      assert SpacedNats(ns) + t == t;
      StopChar(t);
      MoreNumbersStop(t);
    } else {
      Assoc(" " + ShowNat(ns[0]), SpacedNats(ns[1..]), t);
      Assoc(" ", ShowNat(ns[0]), SpacedNats(ns[1..]) + t);
      ToClauseMisses(ShowNat(ns[0]), SpacedNats(ns[1..]) + t);
    }
  }

  /** A list that is not printed as a range: number by number. */
  lemma ListNumbersRT(ns: seq<nat>, t: string)
    requires |ns| > 0 && forall i :: 0 <= i < |ns| ==> ns[i] <= UsizeMax
    requires EndsNot(t)
    ensures ParseNumbers(ShowNat(ns[0]) + SpacedNats(ns[1..]) + t) == Done(ns, t)
  {
    var u := SpacedNats(ns[1..]) + t;
    Assoc(ShowNat(ns[0]), SpacedNats(ns[1..]), t);
    ListFollow(ns[1..], t);
    UsizeRoundTrip(ns[0], u);
    MoreNumbersRT(ns[1..], t);
    NumbersListStep(ShowNat(ns[0]) + u, ns[0], u, ns[1..], t);
    assert [ns[0]] + ns[1..] == ns;
  }

  lemma NumbersRT(ns: seq<nat>, t: string)
    requires forall i :: 0 <= i < |ns| ==> ns[i] <= UsizeMax
    requires EndsNot(t)
    ensures ParseNumbers(ShowNumbers(ns) + t) == Done(ns, t)
  {
    if ns == [] {
      EmptyNumbersText();
      ToRT(1, 0, t);
    } else if |ns| >= 2 && IsRun(ns) {
      ToRT(ns[0], ns[|ns| - 1], t);
      RangeOfRun(ns);
    } else {
      ListNumbersRT(ns, t);
    }
  }

  // ---------------------------------------------------------------------
  // Atoms

  lemma KeywordText(kw: string, w: string, t: string)
    ensures (kw + " ") + w + t == kw + " " + (w + t)
  {
  }

  /** `kw` followed by the rest: `tag(kw)` consumes exactly `kw`. */
  lemma PrefixRest(kw: string, x: string)
    ensures HasPrefix(kw + x, kw) && (kw + x)[|kw|..] == x
  {
    assert (kw + x)[..|kw|] == kw;
  }

  lemma KeywordIdentsStep(kw: string, x: string, ns: seq<string>, t: string)
    requires |x| > 0 && !IsSpace(x[0])
    requires ParseIdentList(x) == Done(ns, t)
    ensures ParseKeywordIdents(kw + " " + x, kw) == Done(ns, t)
  {
    Assoc(kw, " ", x);
    PrefixRest(kw, " " + x);
    SkipNoSpace(x);
  }

  lemma KeywordNumbersStep(kw: string, x: string, ns: seq<nat>, t: string)
    requires |x| > 0 && !IsSpace(x[0])
    requires ParseNumbers(x) == Done(ns, t)
    ensures ParseKeywordNumbers(kw + " " + x, kw) == Done(ns, t)
  {
    Assoc(kw, " ", x);
    PrefixRest(kw, " " + x);
    SkipNoSpace(x);
  }

  /** The first character of a printed number list is a digit. */
  lemma NumbersStart(ns: seq<nat>, t: string)
    ensures |ShowNumbers(ns) + t| > 0 && IsDigit((ShowNumbers(ns) + t)[0])
  {
    if ns == [] {
      assert ShowNumbers(ns)[0] == '1';
    } else if |ns| >= 2 && IsRun(ns) {
      assert ShowNumbers(ns)[0] == ShowNat(ns[0])[0];
    } else {
      assert ShowNumbers(ns)[0] == ShowNat(ns[0])[0];
    }
  }

  lemma WordsStart(ns: seq<string>, t: string)
    requires |ns| > 0 && ValidIdent(ns[0])
    ensures |ShowWords(ns) + t| > 0 && IsAlnum((ShowWords(ns) + t)[0])
  {
    assert ShowWords(ns)[0] == ns[0][0];
  }

  lemma ResNameRT(ns: seq<string>, t: string)
    requires IsPrimary(ResName(ns))
    requires EndsNot(t)
    ensures ParseAtom(Show(ResName(ns)) + t) == Done(ResName(ns), t)
  {
    var x := ShowWords(ns) + t;
    var s := Show(ResName(ns)) + t;
    assert "resname " == "resname" + " ";
    KeywordText("resname", ShowWords(ns), t);
    WordsStart(ns, t);
    IdentListRT(ns, t);
    KeywordIdentsStep("resname", x, ns, t);
    assert s[0] == 'r';
    NotPrefixAt(s, "all", 0);
    NotPrefixAt(s, "protein", 0);
    NotPrefixAt(s, "sidechain", 0);
    NotPrefixAt(s, "backbone", 0);
    NotPrefixAt(s, "water", 0);
    NotPrefixAt(s, "ion", 0);
  }

  lemma NameRT(ns: seq<string>, t: string)
    requires IsPrimary(Name(ns))
    requires EndsNot(t)
    ensures ParseAtom(Show(Name(ns)) + t) == Done(Name(ns), t)
  {
    var x := ShowWords(ns) + t;
    var s := Show(Name(ns)) + t;
    assert "name " == "name" + " ";
    KeywordText("name", ShowWords(ns), t);
    WordsStart(ns, t);
    IdentListRT(ns, t);
    KeywordIdentsStep("name", x, ns, t);
    assert s[0] == 'n';
    NotPrefixAt(s, "all", 0);
    NotPrefixAt(s, "protein", 0);
    NotPrefixAt(s, "sidechain", 0);
    NotPrefixAt(s, "backbone", 0);
    NotPrefixAt(s, "water", 0);
    NotPrefixAt(s, "ion", 0);
    NotPrefixAt(s, "resname", 0);
    NotPrefixAt(s, "resid", 0);
    NotPrefixAt(s, "index", 0);
  }

  lemma ResIdPayload(ids: seq<nat>, t: string)
    requires IsPrimary(ResId(ids))
    requires EndsNot(t)
    ensures ParseKeywordNumbers(Show(ResId(ids)) + t, "resid") == Done(ids, t)
  {
    var x := ShowNumbers(ids) + t;
    assert "resid " == "resid" + " ";
    KeywordText("resid", ShowNumbers(ids), t);
    NumbersStart(ids, t);
    NumbersRT(ids, t);
    KeywordNumbersStep("resid", x, ids, t);
  }

  lemma ResIdRT(ids: seq<nat>, t: string)
    requires IsPrimary(ResId(ids))
    requires EndsNot(t)
    ensures ParseAtom(Show(ResId(ids)) + t) == Done(ResId(ids), t)
  {
    var s := Show(ResId(ids)) + t;
    assert s[0] == 'r' && s[3] == 'i';
    NotPrefixAt(s, "all", 0);
    NotPrefixAt(s, "protein", 0);
    NotPrefixAt(s, "sidechain", 0);
    NotPrefixAt(s, "backbone", 0);
    NotPrefixAt(s, "water", 0);
    NotPrefixAt(s, "ion", 0);
    NotPrefixAt(s, "resname", 3);
    ResIdPayload(ids, t);
    ResIdChosen(s, ids, t);
  }

  lemma ResIdChosen(s: string, ids: seq<nat>, t: string)
    requires !HasPrefix(s, "all") && !HasPrefix(s, "protein") && !HasPrefix(s, "sidechain")
    requires !HasPrefix(s, "backbone") && !HasPrefix(s, "water") && !HasPrefix(s, "ion")
    requires !HasPrefix(s, "resname")
    requires ParseKeywordNumbers(s, "resid") == Done(ids, t)
    ensures ParseAtom(s) == Done(ResId(ids), t)
  {
  }

  lemma IndexChosen(s: string, ids: seq<nat>, t: string)
    requires !HasPrefix(s, "all") && !HasPrefix(s, "protein") && !HasPrefix(s, "sidechain")
    requires !HasPrefix(s, "backbone") && !HasPrefix(s, "water") && !HasPrefix(s, "ion")
    requires !HasPrefix(s, "resname") && !HasPrefix(s, "resid")
    requires ParseKeywordNumbers(s, "index") == Done(ids, t)
    ensures ParseAtom(s) == Done(Index(ids), t)
  {
  }

  lemma IndexPayload(ids: seq<nat>, t: string)
    requires IsPrimary(Index(ids))
    requires EndsNot(t)
    ensures ParseKeywordNumbers(Show(Index(ids)) + t, "index") == Done(ids, t)
  {
    var x := ShowNumbers(ids) + t;
    assert "index " == "index" + " ";
    KeywordText("index", ShowNumbers(ids), t);
    NumbersStart(ids, t);
    NumbersRT(ids, t);
    KeywordNumbersStep("index", x, ids, t);
  }

  lemma IndexRT(ids: seq<nat>, t: string)
    requires IsPrimary(Index(ids))
    requires EndsNot(t)
    ensures ParseAtom(Show(Index(ids)) + t) == Done(Index(ids), t)
  {
    var s := Show(Index(ids)) + t;
    assert s[0] == 'i' && s[1] == 'n';
    NotPrefixAt(s, "all", 0);
    NotPrefixAt(s, "protein", 0);
    NotPrefixAt(s, "sidechain", 0);
    NotPrefixAt(s, "backbone", 0);
    NotPrefixAt(s, "water", 0);
    NotPrefixAt(s, "ion", 1);
    NotPrefixAt(s, "resname", 0);
    NotPrefixAt(s, "resid", 0);
    IndexPayload(ids, t);
    IndexChosen(s, ids, t);
  }

  /** The six keyword predicates without a payload. */
  lemma BareKeywordRT(e: Selection, t: string)
    requires e.All? || e.Protein? || e.Sidechain? || e.Backbone? || e.Water? || e.Ion?
    ensures ParseAtom(Show(e) + t) == Done(e, t)
  {
    var s := Show(e) + t;
    PrefixRest(Show(e), t);
    match e {
      case All =>
      case Protein =>
        assert s[0] == 'p';
        NotPrefixAt(s, "all", 0);
      case Sidechain =>
        assert s[0] == 's';
        NotPrefixAt(s, "all", 0);
        NotPrefixAt(s, "protein", 0);
      case Backbone =>
        assert s[0] == 'b';
        NotPrefixAt(s, "all", 0);
        NotPrefixAt(s, "protein", 0);
        NotPrefixAt(s, "sidechain", 0);
      case Water =>
        assert s[0] == 'w';
        NotPrefixAt(s, "all", 0);
        NotPrefixAt(s, "protein", 0);
        NotPrefixAt(s, "sidechain", 0);
        NotPrefixAt(s, "backbone", 0);
      case Ion =>
        assert s[0] == 'i';
        NotPrefixAt(s, "all", 0);
        NotPrefixAt(s, "protein", 0);
        NotPrefixAt(s, "sidechain", 0);
        NotPrefixAt(s, "backbone", 0);
        NotPrefixAt(s, "water", 0);
    }
  }

  lemma AtomRT(e: Selection, t: string)
    requires IsPrimary(e) && !e.Braket?
    requires EndsNot(t)
    ensures ParseAtom(Show(e) + t) == Done(e, t)
  {
    match e {
      case ResName(ns) => ResNameRT(ns, t);
      case Name(ns) => NameRT(ns, t);
      case ResId(ids) => ResIdRT(ids, t);
      case Index(ids) => IndexRT(ids, t);
      case _ => BareKeywordRT(e, t);
    }
  }

  // ---------------------------------------------------------------------
  // Trees

  /** Number of nodes, the measure of the round-trip induction. */
  function Size(e: Selection): nat
  {
    match e
    case Not(x) => 1 + Size(x)
    case Braket(x) => 1 + Size(x)
    case And(cs) => 1 + SizeAll(cs)
    case Or(cs) => 1 + SizeAll(cs)
    case _ => 1
  }

  function SizeAll(cs: seq<Selection>): nat
  {
    if cs == [] then 0 else Size(cs[0]) + SizeAll(cs[1..])
  }

  /** How the text of a primary begins. */
  lemma PrimaryStart(e: Selection, t: string)
    requires IsPrimary(e)
    ensures |Show(e) + t| > 0 && !IsSpace((Show(e) + t)[0])
    ensures !HasPrefix(Show(e) + t, "not")
    ensures (Show(e) + t)[0] == '(' <==> e.Braket?
  {
    var s := Show(e) + t;
    match e {
      case Name(_) =>
        assert s[1] == 'a';
        NotPrefixAt(s, "not", 1);
      case Braket(_) =>
        assert s[0] == '(';
        NotPrefixAt(s, "not", 0);
      case All | Protein | Water | Ion | Backbone | Sidechain | ResName(_) | ResId(_) | Index(_) =>
        assert s[0] != 'n' && s[0] != '(' && s[0] != ' ' by {
          assert s[0] == Show(e)[0];
        }
        NotPrefixAt(s, "not", 0);
    }
  }

  /** Every printed tree is non-empty and begins with a non-blank. */
  lemma ShowStart(e: Selection, t: string)
    requires IsOrLevel(e)
    ensures |Show(e) + t| > 0 && !IsSpace((Show(e) + t)[0])
  {
    LevelsNest(e);
    if e.Or? || e.And? {
      var c := e.children[0];
      LevelsNest(c);
      ShowStart(c, ShowSuffix(e.children[1..], if e.Or? then " or " else " and ") + t);
      Assoc(Show(c), ShowSuffix(e.children[1..], if e.Or? then " or " else " and "), t);
    } else if e.Not? {
      assert (Show(e) + t)[0] == 'n';
    } else {
      PrimaryStart(e, t);
    }
  }

  // One step of each grammar rule, stated on plain strings

  lemma BraketStep(s: string, x: Selection, t: string)
    requires |s| > 0 && s[0] == '('
    requires ParseExpr(s[1..]) == Done(x, ")" + t)
    ensures ParsePrimary(s) == Done(Braket(x), t)
  {
    SkipNoSpace(s);
    assert (")" + t)[1..] == t;
  }

  lemma AtomStep(s: string, e: Selection, t: string)
    requires |s| > 0 && s[0] != '(' && !IsSpace(s[0])
    requires ParseAtom(s) == Done(e, t)
    ensures ParsePrimary(s) == Done(e, t)
  {
    SkipNoSpace(s);
  }

  lemma PadPrimary(sp: string, x: string)
    requires sp == "" || sp == " "
    requires |x| > 0 && !IsSpace(x[0])
    ensures ParsePrimary(sp + x) == ParsePrimary(x)
  {
    SkipNoSpace(x);
    if sp == "" { assert sp + x == x; }
  }

  lemma NoNotStep(sp: string, x: string, e: Selection, t: string)
    requires sp == "" || sp == " "
    requires |x| > 0 && !IsSpace(x[0]) && !HasPrefix(x, "not")
    requires ParsePrimary(x) == Done(e, t)
    ensures ParseNot(sp + x) == Done(e, t)
  {
    SkipNoSpace(x);
    if sp == "" { assert sp + x == x; }
    PadPrimary(sp, x);
  }

  lemma NotStep(s: string, v: string, y: Selection, t: string)
    requires SkipSpaces(s) == v && HasPrefix(v, "not")
    requires ParseNot(v[3..]) == Done(y, t)
    ensures ParseNot(s) == Done(Not(y), t)
  {
    CountNotsStep(s, v);
  }

  /** A `not` after the blanks adds one to the count of the rest. */
  lemma CountNotsStep(s: string, v: string)
    requires SkipSpaces(s) == v && HasPrefix(v, "not")
    ensures CountNots(s) == (CountNots(v[3..]).0 + 1, CountNots(v[3..]).1)
  {
    var more := CountNots(SkipSpaces(s)[3..]);
    assert CountNots(s) == (more.0 + 1, more.1);
  }

  lemma AndStep(s: string, c: Selection, u: string, rest: seq<Selection>, t: string)
    requires ParseNot(s) == Done(c, u)
    requires ParseAndTail(u) == Done(rest, t)
    ensures ParseAnd(s) == Done(if rest == [] then c else And([c] + rest), t)
  {
  }

  /** The text ` kw w` skips to `kw w`, carries the keyword, and after it skips to `w`. */
  lemma SpacedKeyword(kw: string, w: string)
    requires |kw| > 0 && !IsSpace(kw[0])
    requires |w| > 0 && !IsSpace(w[0])
    ensures StartsWithSpace(" " + (kw + (" " + w)))
    ensures SkipSpaces(" " + (kw + (" " + w))) == kw + (" " + w)
    ensures HasPrefix(kw + (" " + w), kw)
    ensures (kw + (" " + w))[|kw|..] == " " + w
    ensures StartsWithSpace(" " + w) && SkipSpaces(" " + w) == w
  {
    SkipNoSpace(kw + (" " + w));
    PrefixRest(kw, " " + w);
    SkipNoSpace(w);
  }

  lemma AndTailStep(w: string, c: Selection, u: string, rest: seq<Selection>, t: string)
    requires |w| > 0 && !IsSpace(w[0])
    requires ParseNot(w) == Done(c, u)
    requires ParseAndTail(u) == Done(rest, t)
    ensures ParseAndTail(" and " + w) == Done([c] + rest, t)
  {
    SpacedKeyword("and", w);
    assert " and " + w == " " + ("and" + (" " + w));
  }


  lemma OrStep(s: string, c: Selection, u: string, rest: seq<Selection>, t: string)
    requires ParseAnd(s) == Done(c, u)
    requires ParseOrTail(u) == Done(rest, t)
    ensures ParseOr(s) == Done(if rest == [] then c else Or([c] + rest), t)
  {
  }

  lemma OrTailStep(w: string, c: Selection, u: string, rest: seq<Selection>, t: string)
    requires |w| > 0 && !IsSpace(w[0])
    requires ParseAnd(w) == Done(c, u)
    requires ParseOrTail(u) == Done(rest, t)
    ensures ParseOrTail(" or " + w) == Done([c] + rest, t)
  {
    SpacedKeyword("or", w);
    assert " or " + w == " " + ("or" + (" " + w));
  }


  lemma ExprStep(s: string, e: Selection, t: string)
    requires ParseOr(s) == Done(e, t)
    requires EndsOr(t)
    ensures ParseExpr(s) == Done(e, SkipSpaces(t))
    ensures SkipSpaces(t) == [] || SkipSpaces(t) == t
  {
    if Blanks(t) { BlanksSkip(t); } else { SkipNoSpace(t); }
  }

  lemma SuffixText(cs: seq<Selection>, sep: string, t: string)
    requires cs != []
    ensures ShowSuffix(cs, sep) + t == sep + (Show(cs[0]) + (ShowSuffix(cs[1..], sep) + t))
    ensures HasPrefix(ShowSuffix(cs, sep) + t, sep)
  {
    Assoc4(sep, Show(cs[0]), ShowSuffix(cs[1..], sep), t);
    Assoc(Show(cs[0]), ShowSuffix(cs[1..], sep), t);
    PrefixRest(sep, Show(cs[0]) + (ShowSuffix(cs[1..], sep) + t));
  }

  /** What follows the first operand of a joined list is the rest of the
      list and then `t`. */
  lemma RestFollows(cs: seq<Selection>, sep: string, t: string)
    requires sep == " and " || sep == " or "
    requires EndsAnd(t) && (sep == " or " ==> EndsOr(t))
    ensures sep == " and " ==> EndsNot(ShowSuffix(cs, sep) + t)
    ensures sep == " or " ==> EndsAnd(ShowSuffix(cs, sep) + t)
  {
    if cs == [] {
      assert ShowSuffix(cs, sep) + t == t;
    } else {
      SuffixText(cs, sep, t);
    }
  }

  /** `not` text after an optional blank: `tag("not")` finds the keyword, then the operand's blank. */
  lemma NotCaseText(sp: string, y: Selection, t: string)
    requires sp == "" || sp == " "
    ensures SkipSpaces(sp + (Show(Not(y)) + t)) == Show(Not(y)) + t
    ensures HasPrefix(Show(Not(y)) + t, "not")
    ensures (Show(Not(y)) + t)[3..] == " " + (Show(y) + t)
  {
    var v := Show(Not(y)) + t;
    NotText(y, t);
    PrefixRest("not", " " + (Show(y) + t));
    SkipNoSpace(v);
    if sp == "" { assert sp + v == v; }
  }

  lemma NotCase(sp: string, y: Selection, t: string)
    requires sp == "" || sp == " "
    requires ParseNot(" " + (Show(y) + t)) == Done(y, t)
    ensures ParseNot(sp + (Show(Not(y)) + t)) == Done(Not(y), t)
  {
    NotCaseText(sp, y, t);
    NotStep(sp + (Show(Not(y)) + t), Show(Not(y)) + t, y, t);
  }


  lemma NotText(y: Selection, t: string)
    ensures Show(Not(y)) + t == "not" + (" " + (Show(y) + t))
  {
    assert Show(Not(y)) == "not" + " " + Show(y);
    Assoc4("not", " ", Show(y), t);
  }

  lemma PrimaryCase(sp: string, e: Selection, t: string)
    requires sp == "" || sp == " "
    requires IsPrimary(e)
    requires ParsePrimary(Show(e) + t) == Done(e, t)
    ensures ParseNot(sp + (Show(e) + t)) == Done(e, t)
  {
    PrimaryStart(e, t);
    NoNotStep(sp, Show(e) + t, e, t);
  }

  lemma BraketCase(x: Selection, t: string)
    requires ParseExpr(Show(x) + (")" + t)) == Done(x, ")" + t)
    ensures ParsePrimary(Show(Braket(x)) + t) == Done(Braket(x), t)
  {
    var s := Show(Braket(x)) + t;
    Assoc4("(", Show(x), ")", t);
    assert s[1..] == Show(x) + (")" + t);
    BraketStep(s, x, t);
  }

  lemma AtomCase(e: Selection, t: string)
    requires IsPrimary(e) && !e.Braket?
    requires EndsNot(t)
    ensures ParsePrimary(Show(e) + t) == Done(e, t)
  {
    PrimaryStart(e, t);
    AtomRT(e, t);
    AtomStep(Show(e) + t, e, t);
  }

  lemma JoinCase(cs: seq<Selection>, sep: string, t: string, first: Selection, u: string)
    requires cs != [] && first == cs[0]
    requires u == ShowSuffix(cs[1..], sep) + t
    ensures ShowSuffix(cs, sep) + t == sep + (Show(first) + u)
    ensures |Show(first) + u| > 0 && !IsSpace((Show(first) + u)[0]) <== IsOrLevel(first)
    ensures "" + (Show(first) + u) == Show(first) + u
    ensures [first] + cs[1..] == cs
  {
    SuffixText(cs, sep, t);
    if IsOrLevel(first) { ShowStart(first, u); }
  }

  lemma HeadCase(cs: seq<Selection>, sep: string, t: string, u: string)
    requires cs != []
    requires u == ShowSuffix(cs[1..], sep) + t
    ensures Show(cs[0]) + ShowSuffix(cs[1..], sep) + t == Show(cs[0]) + u
    ensures "" + (Show(cs[0]) + u) == Show(cs[0]) + u
    ensures [cs[0]] + cs[1..] == cs
    ensures SizeAll(cs) == Size(cs[0]) + SizeAll(cs[1..])
  {
    Assoc(Show(cs[0]), ShowSuffix(cs[1..], sep), t);
  }

  // ---------------------------------------------------------------------
  // The round trip, rule by rule

  lemma {:induction false} PrimaryRT(e: Selection, t: string)
    requires IsPrimary(e)
    requires EndsNot(t)
    ensures ParsePrimary(Show(e) + t) == Done(e, t)
    decreases Size(e), 1
  {
    if e.Braket? {
      ExprRT(e.inner, ")" + t);
      SkipNoSpace(")" + t);
      BraketCase(e.inner, t);
    } else {
      AtomCase(e, t);
    }
  }

  lemma {:induction false} NotRT(e: Selection, sp: string, t: string)
    requires IsNotLevel(e)
    requires sp == "" || sp == " "
    requires EndsNot(t)
    ensures ParseNot(sp + (Show(e) + t)) == Done(e, t)
    decreases Size(e), 2
  {
    if e.Not? {
      NotRT(e.inner, " ", t);
      NotCase(sp, e.inner, t);
    } else {
      PrimaryRT(e, t);
      PrimaryCase(sp, e, t);
    }
  }

  lemma {:induction false} AndTailRT(cs: seq<Selection>, t: string)
    requires forall i :: 0 <= i < |cs| ==> IsNotLevel(cs[i])
    requires EndsAnd(t)
    ensures ParseAndTail(ShowSuffix(cs, " and ") + t) == Done(cs, t)
    decreases SizeAll(cs), 3
  {
    if cs == [] {
      assert ShowSuffix(cs, " and ") + t == t;
      AndTailStop(t);
    } else {
      var u := ShowSuffix(cs[1..], " and ") + t;
      RestFollows(cs[1..], " and ", t);
      LevelsNest(cs[0]);
      JoinCase(cs, " and ", t, cs[0], u);
      assert SizeAll(cs) == Size(cs[0]) + SizeAll(cs[1..]);
      NotRT(cs[0], "", u);
      AndTailRT(cs[1..], t);
      AndTailStep(Show(cs[0]) + u, cs[0], u, cs[1..], t);
    }
  }

  lemma {:induction false} AndRT(e: Selection, t: string)
    requires IsAndLevel(e)
    requires EndsAnd(t)
    ensures ParseAnd(Show(e) + t) == Done(e, t)
    decreases Size(e), 4
  {
    if e.And? {
      var cs := e.children;
      var u := ShowSuffix(cs[1..], " and ") + t;
      RestFollows(cs[1..], " and ", t);
      HeadCase(cs, " and ", t, u);
      NotRT(cs[0], "", u);
      AndTailRT(cs[1..], t);
      AndStep(Show(e) + t, cs[0], u, cs[1..], t);
    } else {
      NotRT(e, "", t);
      assert "" + (Show(e) + t) == Show(e) + t;
      AndTailStop(t);
      AndStep(Show(e) + t, e, t, [], t);
    }
  }

  lemma {:induction false} OrTailRT(cs: seq<Selection>, t: string)
    requires forall i :: 0 <= i < |cs| ==> IsAndLevel(cs[i])
    requires EndsOr(t)
    ensures ParseOrTail(ShowSuffix(cs, " or ") + t) == Done(cs, t)
    decreases SizeAll(cs), 5
  {
    if cs == [] {
      OrTailEmpty(t);
    } else {
      var u := ShowSuffix(cs[1..], " or ") + t;
      RestFollows(cs[1..], " or ", t);
      LevelsNest(cs[0]);
      JoinCase(cs, " or ", t, cs[0], u);
      assert SizeAll(cs) == Size(cs[0]) + SizeAll(cs[1..]);
      AndRT(cs[0], u);
      OrTailRT(cs[1..], t);
      OrTailStep(Show(cs[0]) + u, cs[0], u, cs[1..], t);
    }
  }

  lemma {:induction false} OrRT(e: Selection, t: string)
    requires IsOrLevel(e)
    requires EndsOr(t)
    ensures ParseOr(Show(e) + t) == Done(e, t)
    decreases Size(e), 6
  {
    if e.Or? {
      var cs := e.children;
      var u := ShowSuffix(cs[1..], " or ") + t;
      RestFollows(cs[1..], " or ", t);
      HeadCase(cs, " or ", t, u);
      AndRT(cs[0], u);
      OrTailRT(cs[1..], t);
      OrStep(Show(e) + t, cs[0], u, cs[1..], t);
    } else {
      AndRT(e, t);
      OrTailStop(t);
      OrStep(Show(e) + t, e, t, [], t);
    }
  }

  lemma {:induction false} ExprRT(e: Selection, t: string)
    requires IsOrLevel(e)
    requires EndsOr(t)
    ensures ParseExpr(Show(e) + t) == Done(e, SkipSpaces(t))
    decreases Size(e), 7
  {
    OrRT(e, t);
    ExprStep(Show(e) + t, e, t);
  }

  /** Printing then parsing gives back every tree the parser can produce. */
  lemma RoundTrip(e: Selection)
    requires IsOrLevel(e)
    ensures ParseSelection(Show(e)) == Ok(e)
  {
    ExprRT(e, []);
    assert Show(e) + [] == Show(e);
    BlanksSkip([]);
  }

  /** Trailing blanks are absorbed by the `space0` that ends `parse_expr`. */
  lemma RoundTripPadded(e: Selection, pad: string)
    requires IsOrLevel(e)
    requires Blanks(pad)
    ensures ParseSelection(Show(e) + pad) == Ok(e)
  {
    ExprRT(e, pad);
    BlanksSkip(pad);
  }

  /** Any run of blanks in front of the query changes nothing. */
  lemma {:induction false} LeadingBlanks(b: string, s: string)
    requires Blanks(b)
    ensures ParseSelection(b + s) == ParseSelection(s)
  {
    if b == [] {
      assert b + s == s;
    } else {
      assert b + s == [b[0]] + (b[1..] + s);
      LeadingBlank(b[0], b[1..] + s);
      LeadingBlanks(b[1..], s);
    }
  }

  /** A query made of a single keyword predicate. */
  lemma AtomSelection(s: string, e: Selection)
    requires |s| > 0 && s[0] != '(' && !IsSpace(s[0]) && !HasPrefix(s, "not")
    requires ParseAtom(s) == Done(e, [])
    ensures ParseSelection(s) == Ok(e)
  {
    AtomStep(s, e, []);
    NoNotStep("", s, e, []);
    assert "" + s == s;
    AndTailStop([]);
    AndStep(s, e, [], [], []);
    OrTailStop([]);
    OrStep(s, e, [], [], []);
    ExprStep(s, e, []);
    BlanksSkip([]);
  }

  /** A query whose single keyword predicate fails to parse. */
  lemma AtomFailure(s: string, f: Fail)
    requires |s| > 0 && s[0] != '(' && !IsSpace(s[0]) && !HasPrefix(s, "not")
    requires ParseAtom(s) == Failed(f)
    ensures ParseSelection(s) == if f == Overflow then Panicked else Err
  {
    SkipNoSpace(s);
    assert CountNots(s) == (0, s);
    assert ParsePrimary(s) == Failed(f);
    assert ParseNot(s) == Failed(f);
    assert ParseAnd(s) == Failed(f);
    assert ParseOr(s) == Failed(f);
  }

  /** `parse_usize` unwraps the conversion: digits beyond `usize` panic. */
  lemma UsizeOverflow(n: nat)
    requires n > UsizeMax
    ensures ParseNumbers(ShowNat(n)) == Failed(Overflow)
  {
    SpanConcat(ShowNat(n), [], Digit);
    assert ShowNat(n) + [] == ShowNat(n);
  }

  lemma KeywordOverflow(kw: string, n: nat)
    requires n > UsizeMax
    ensures ParseKeywordNumbers(kw + " " + ShowNat(n), kw) == Failed(Overflow)
  {
    var x := ShowNat(n);
    UsizeOverflow(n);
    Assoc(kw, " ", x);
    PrefixRest(kw, " " + x);
    SkipNoSpace(x);
  }

  lemma IndexOverflow(s: string)
    requires HasPrefix(s, "index ")
    requires ParseKeywordNumbers(s, "index") == Failed(Overflow)
    ensures ParseAtom(s) == Failed(Overflow)
    ensures s[0] != '(' && !IsSpace(s[0]) && !HasPrefix(s, "not")
  {
    assert s[0] == s[..6][0] == 'i';
    NotPrefixAt(s, "all", 0);
    NotPrefixAt(s, "protein", 0);
    NotPrefixAt(s, "sidechain", 0);
    NotPrefixAt(s, "backbone", 0);
    NotPrefixAt(s, "water", 0);
    NotPrefixAt(s, "not", 0);
    assert s[1] == s[..6][1] == 'n' && s[2] == s[..6][2] == 'd';
    NotPrefixAt(s, "ion", 1);
    NotPrefixAt(s, "resname", 0);
    NotPrefixAt(s, "resid", 0);
  }

  lemma ResIdOverflow(s: string)
    requires HasPrefix(s, "resid ")
    requires ParseKeywordNumbers(s, "resid") == Failed(Overflow)
    ensures ParseAtom(s) == Failed(Overflow)
    ensures s[0] != '(' && !IsSpace(s[0]) && !HasPrefix(s, "not")
  {
    assert s[0] == s[..6][0] == 'r';
    NotPrefixAt(s, "all", 0);
    NotPrefixAt(s, "protein", 0);
    NotPrefixAt(s, "sidechain", 0);
    NotPrefixAt(s, "backbone", 0);
    NotPrefixAt(s, "water", 0);
    NotPrefixAt(s, "ion", 0);
    NotPrefixAt(s, "not", 0);
    assert s[5] == s[..6][5] == ' ';
    NotPrefixAt(s, "resname", 5);
  }

  /** `index n` or `resid n` with `n` beyond `usize` panics instead of
      reporting an error. */
  lemma OverflowPanics(kw: string, n: nat)
    requires kw == "index" || kw == "resid"
    requires n > UsizeMax
    ensures ParseSelection(kw + " " + ShowNat(n)) == Panicked
  {
    var s := kw + " " + ShowNat(n);
    KeywordOverflow(kw, n);
    assert s[..6] == kw + " ";
    if kw == "index" { IndexOverflow(s); } else { ResIdOverflow(s); }
    AtomFailure(s, Overflow);
  }
}
