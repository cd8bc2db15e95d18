/**
 * The parser's own examples: each query string of the crate's test suite
 * with the tree it must produce or the failure it must report, and the
 * evaluator's example.
 */
module AslExamples {
  import opened Asl
  import opened AslPrint

  // ---------------------------------------------------------------------
  // Texts of the trees used below

  lemma NumberTexts()
    ensures ShowNat(10) == "10" && ShowNat(20) == "20"
  {
    assert ShowNat(1) == "1" && ShowNat(2) == "2" && ShowNat(0) == "0";
  }

  lemma OneWord(w: string)
    ensures ShowWords([w]) == w
  {
    assert SpacedWords([w][1..]) == [];
  }

  lemma TwoWords(a: string, b: string)
    ensures ShowWords([a, b]) == a + " " + b
  {
    assert [a, b][1..] == [b];
    assert SpacedWords([b][1..]) == [];
  }

  lemma OneNumber()
    ensures ShowNumbers([10]) == "10"
  {
    NumberTexts();
    assert SpacedNats([10][1..]) == [];
  }

  lemma TwoNumbers()
    ensures ShowNumbers([10, 20]) == "10 20"
  {
    NumberTexts();
    assert !IsRun([10, 20]) by { assert [10, 20][1] != [10, 20][0] + 1; }
    assert [10, 20][1..] == [20];
    assert SpacedNats([20][1..]) == [];
  }

  lemma RangeText()
    ensures ShowNumbers(Range(10, 20)) == "10 to 20"
  {
    NumberTexts();
    var r := Range(10, 20);
    assert |r| == 11 && r[0] == 10 && r[10] == 20;
    assert IsRun(r);
  }

  /** A text that prints a tree the parser can produce parses to it. */
  lemma FromShow(e: Selection, text: string)
    requires IsOrLevel(e) && Show(e) == text
    ensures ParseSelection(text) == Ok(e)
  {
    RoundTrip(e);
  }

  lemma Joined(a: Selection, b: Selection, sep: string)
    ensures ShowSuffix([b], sep) == sep + Show(b)
  {
    assert [b][1..] == [];
  }

  // ---------------------------------------------------------------------
  // Single keyword predicates

  lemma ParsesAll()
    ensures ParseSelection("all") == Ok(All)
  {
    FromShow(All, "all");
  }

  lemma ParsesPaddedAll()
    ensures ParseSelection(" all ") == Ok(All)
  {
    RoundTripPadded(All, " ");
    assert Show(All) + " " == "all ";
    assert " all " == [' '] + "all ";
    LeadingBlank(' ', "all ");
  }

  lemma ParsesProtein()
    ensures ParseSelection("protein") == Ok(Protein)
  {
    FromShow(Protein, "protein");
  }

  lemma ParsesWater()
    ensures ParseSelection("water") == Ok(Water)
  {
    FromShow(Water, "water");
  }

  lemma ParsesIon()
    ensures ParseSelection("ion") == Ok(Ion)
  {
    FromShow(Ion, "ion");
  }

  lemma ParsesBackbone()
    ensures ParseSelection("backbone") == Ok(Backbone)
  {
    FromShow(Backbone, "backbone");
  }

  lemma ParsesSidechain()
    ensures ParseSelection("sidechain") == Ok(Sidechain)
  {
    FromShow(Sidechain, "sidechain");
  }

  lemma ParsesResName()
    ensures ParseSelection("resname ALA") == Ok(ResName(["ALA"]))
  {
    OneWord("ALA");
    assert ValidIdent("ALA");
    FromShow(ResName(["ALA"]), "resname ALA");
  }

  lemma ParsesResNames()
    ensures ParseSelection("resname ALA GLU") == Ok(ResName(["ALA", "GLU"]))
  {
    TwoWords("ALA", "GLU");
    assert ValidIdent("ALA") && ValidIdent("GLU");
    FromShow(ResName(["ALA", "GLU"]), "resname ALA GLU");
  }

  lemma ParsesName()
    ensures ParseSelection("name CA") == Ok(Name(["CA"]))
  {
    OneWord("CA");
    assert ValidIdent("CA");
    FromShow(Name(["CA"]), "name CA");
  }

  lemma ParsesNames()
    ensures ParseSelection("name CA CB") == Ok(Name(["CA", "CB"]))
  {
    TwoWords("CA", "CB");
    assert ValidIdent("CA") && ValidIdent("CB");
    FromShow(Name(["CA", "CB"]), "name CA CB");
  }

  lemma ParsesIndex()
    ensures ParseSelection("index 10") == Ok(Index([10]))
  {
    OneNumber();
    FromShow(Index([10]), "index 10");
  }

  lemma ParsesIndices()
    ensures ParseSelection("index 10 20") == Ok(Index([10, 20]))
  {
    TwoNumbers();
    FromShow(Index([10, 20]), "index 10 20");
  }

  lemma ParsesIndexRange()
    ensures ParseSelection("index 10 to 20") == Ok(Index(Range(10, 20)))
  {
    RangeText();
    FromShow(Index(Range(10, 20)), "index 10 to 20");
  }

  lemma ParsesResId()
    ensures ParseSelection("resid 10") == Ok(ResId([10]))
  {
    OneNumber();
    FromShow(ResId([10]), "resid 10");
  }

  lemma ParsesResIds()
    ensures ParseSelection("resid 10 20") == Ok(ResId([10, 20]))
  {
    TwoNumbers();
    FromShow(ResId([10, 20]), "resid 10 20");
  }

  lemma ParsesResIdRange()
    ensures ParseSelection("resid 10 to 20") == Ok(ResId(Range(10, 20)))
  {
    RangeText();
    FromShow(ResId(Range(10, 20)), "resid 10 to 20");
  }

  // ---------------------------------------------------------------------
  // Connectives and brackets

  lemma AndText(a: Selection, b: Selection)
    ensures Show(And([a, b])) == Show(a) + " and " + Show(b)
  {
    assert [a, b][1..] == [b];
    assert [b][1..] == [];
    assert ShowSuffix([b], " and ") == " and " + Show(b) + "";
    Assoc(Show(a), " and ", Show(b));
  }

  lemma OrText(a: Selection, b: Selection)
    ensures Show(Or([a, b])) == Show(a) + " or " + Show(b)
  {
    assert [a, b][1..] == [b];
    assert [b][1..] == [];
    assert ShowSuffix([b], " or ") == " or " + Show(b) + "";
    Assoc(Show(a), " or ", Show(b));
  }

  lemma ResNameText(w: string)
    requires ValidIdent(w)
    ensures Show(ResName([w])) == "resname " + w
    ensures IsPrimary(ResName([w])) && IsNotLevel(ResName([w])) && IsAndLevel(ResName([w]))
  {
    OneWord(w);
    LevelsNest(ResName([w]));
  }

  lemma ParsesAnd()
    ensures ParseSelection("resname ALA and resname GLU")
         == Ok(And([ResName(["ALA"]), ResName(["GLU"])]))
  {
    var a, g := ResName(["ALA"]), ResName(["GLU"]);
    assert ValidIdent("ALA") && ValidIdent("GLU");
    ResNameText("ALA");
    ResNameText("GLU");
    AndText(a, g);
    AndJoin();
    AndOfTwo(a, g);
    LevelsNest(And([a, g]));
    FromShow(And([a, g]), "resname ALA and resname GLU");
  }

  lemma AndJoin()
    ensures "resname ALA" + " and " + "resname GLU" == "resname ALA and resname GLU"
  {
  }

  lemma ParsesOr()
    ensures ParseSelection("resname ALA or resname GLU")
         == Ok(Or([ResName(["ALA"]), ResName(["GLU"])]))
  {
    var a, g := ResName(["ALA"]), ResName(["GLU"]);
    assert ValidIdent("ALA") && ValidIdent("GLU");
    ResNameText("ALA");
    ResNameText("GLU");
    OrText(a, g);
    OrJoin();
    OrOfTwo(a, g);
    FromShow(Or([a, g]), "resname ALA or resname GLU");
  }

  lemma OrJoin()
    ensures "resname ALA" + " or " + "resname GLU" == "resname ALA or resname GLU"
  {
  }

  lemma ParsesNot()
    ensures ParseSelection("not resname ALA") == Ok(Not(ResName(["ALA"])))
  {
    NotResNameText();
    FromShow(Not(ResName(["ALA"])), "not resname ALA");
  }

  lemma NotResNameText()
    ensures Show(Not(ResName(["ALA"]))) == "not resname ALA"
    ensures IsOrLevel(Not(ResName(["ALA"])))
  {
    assert ValidIdent("ALA");
    ResNameText("ALA");
    LevelsNest(Not(ResName(["ALA"])));
    assert "not" + " " + "resname ALA" == "not resname ALA";
  }

  lemma BraketText(x: Selection, inner: string)
    requires Show(x) == inner
    ensures Show(Braket(x)) == "(" + inner + ")"
  {
  }

  lemma BraketAndText(e: Selection)
    requires e == And([Braket(ResName(["ALA", "GLU"])), Name(["CA"])])
    ensures Show(e) == "(resname ALA GLU) and name CA"
  {
    var b, n := Braket(ResName(["ALA", "GLU"])), Name(["CA"]);
    TwoWords("ALA", "GLU");
    assert Show(ResName(["ALA", "GLU"])) == "resname ALA GLU";
    BraketText(ResName(["ALA", "GLU"]), "resname ALA GLU");
    OneWord("CA");
    assert Show(n) == "name CA";
    AndText(b, n);
    BraketAndJoin();
  }

  lemma BraketAndJoin()
    ensures "(" + "resname ALA GLU" + ")" + " and " + "name CA" == "(resname ALA GLU) and name CA"
  {
  }

  lemma BraketAndShape(e: Selection)
    requires e == And([Braket(ResName(["ALA", "GLU"])), Name(["CA"])])
    ensures IsOrLevel(e)
  {
    var rs, n := ResName(["ALA", "GLU"]), Name(["CA"]);
    assert ValidIdent("ALA") && ValidIdent("GLU") && ValidIdent("CA");
    assert IsPrimary(rs) && IsPrimary(n);
    LevelsNest(rs);
    LevelsNest(n);
    BraketLevel(rs);
    AndOfTwo(Braket(rs), n);
    LevelsNest(e);
  }

  /** A bracket around an expression is a primary, and so an operand of `and`. */
  lemma BraketLevel(x: Selection)
    requires IsOrLevel(x)
    ensures IsPrimary(Braket(x)) && IsNotLevel(Braket(x)) && IsAndLevel(Braket(x))
  {
    LevelsNest(Braket(x));
  }

  lemma AndOfTwo(a: Selection, b: Selection)
    requires IsNotLevel(a) && IsNotLevel(b)
    ensures IsAndLevel(And([a, b]))
  {
  }

  lemma OrOfTwo(a: Selection, b: Selection)
    requires IsAndLevel(a) && IsAndLevel(b)
    ensures IsOrLevel(Or([a, b]))
  {
  }

  lemma ParsesBraketAnd()
    ensures ParseSelection("(resname ALA GLU) and name CA")
         == Ok(And([Braket(ResName(["ALA", "GLU"])), Name(["CA"])]))
  {
    var e := And([Braket(ResName(["ALA", "GLU"])), Name(["CA"])]);
    BraketAndText(e);
    BraketAndShape(e);
    FromShow(e, "(resname ALA GLU) and name CA");
  }

  lemma BraketRangeText()
    ensures Show(Braket(Index(Range(10, 20)))) == "(index 10 to 20)"
  {
    IndexRangeText();
    BraketText(Index(Range(10, 20)), "index 10 to 20");
    assert "(" + "index 10 to 20" + ")" == "(index 10 to 20)";
  }

  lemma IndexRangeText()
    ensures Show(Index(Range(10, 20))) == "index 10 to 20"
  {
    RangeText();
    assert "index" + " " + "10 to 20" == "index 10 to 20";
  }

  lemma ProteinAndText()
    ensures Show(And([Protein, Braket(ResName(["ALA"]))])) == "protein and (resname ALA)"
  {
    OneWord("ALA");
    assert Show(ResName(["ALA"])) == "resname ALA";
    BraketText(ResName(["ALA"]), "resname ALA");
    AndText(Protein, Braket(ResName(["ALA"])));
    ProteinAndJoin();
  }

  lemma ProteinAndJoin()
    ensures "protein" + " and " + ("(" + "resname ALA" + ")") == "protein and (resname ALA)"
  {
  }

  lemma PrecedenceText(e: Selection)
    requires e == Or([Braket(Index(Range(10, 20))), And([Protein, Braket(ResName(["ALA"]))])])
    ensures Show(e) == "(index 10 to 20) or protein and (resname ALA)"
  {
    var i, pa := Braket(Index(Range(10, 20))), And([Protein, Braket(ResName(["ALA"]))]);
    BraketRangeText();
    ProteinAndText();
    OrText(i, pa);
    PrecedenceJoin();
  }

  lemma PrecedenceJoin()
    ensures "(index 10 to 20)" + " or " + "protein and (resname ALA)"
         == "(index 10 to 20) or protein and (resname ALA)"
  {
  }

  lemma PrecedenceShape(e: Selection)
    requires e == Or([Braket(Index(Range(10, 20))), And([Protein, Braket(ResName(["ALA"]))])])
    ensures IsOrLevel(e)
  {
    var idx, rn := Index(Range(10, 20)), ResName(["ALA"]);
    assert IsPrimary(idx);
    assert ValidIdent("ALA");
    assert IsPrimary(rn);
    LevelsNest(idx);
    LevelsNest(rn);
    LevelsNest(Protein);
    BraketLevel(idx);
    BraketLevel(rn);
    AndOfTwo(Protein, Braket(rn));
    OrOfTwo(Braket(idx), And([Protein, Braket(rn)]));
  }

  lemma ParsesBraketPrecedence()
    ensures ParseSelection("(index 10 to 20) or protein and (resname ALA)")
         == Ok(Or([Braket(Index(Range(10, 20))), And([Protein, Braket(ResName(["ALA"]))])]))
  {
    var e := Or([Braket(Index(Range(10, 20))), And([Protein, Braket(ResName(["ALA"]))])]);
    PrecedenceText(e);
    PrecedenceShape(e);
    FromShow(e, "(index 10 to 20) or protein and (resname ALA)");
  }

  // ---------------------------------------------------------------------
  // The evaluator's example

  lemma SampleTree(e: Selection)
    requires e == Or([Braket(Index(Range(10, 20))), ResName(["ALA"])])
    ensures Show(e) == "(index 10 to 20) or resname ALA"
    ensures IsOrLevel(e)
  {
    var idx, rn := Index(Range(10, 20)), ResName(["ALA"]);
    BraketRangeText();
    assert ValidIdent("ALA");
    ResNameText("ALA");
    OrText(Braket(idx), rn);
    SampleJoin();
    assert IsPrimary(idx);
    LevelsNest(idx);
    BraketLevel(idx);
    OrOfTwo(Braket(idx), rn);
  }

  lemma SampleJoin()
    ensures "(index 10 to 20)" + " or " + "resname ALA" == "(index 10 to 20) or resname ALA"
  {
  }

  lemma SampleTreeEval(e: Selection)
    requires e == Or([Braket(Index(Range(10, 20))), ResName(["ALA"])])
    ensures Eval(e, State(15, "ALA", 10, "CA"))
    ensures !Eval(e, State(25, "GLU", 20, "CA"))
  {
    var st1, st2 := State(15, "ALA", 10, "CA"), State(25, "GLU", 20, "CA");
    EvalIndexRange(10, 20, st1);
    EvalIndexRange(10, 20, st2);
    assert Eval(e.children[0], st1);
    assert !Eval(e.children[0], st2);
    assert !Eval(e.children[1], st2) by { assert "GLU" != "ALA"; }
  }

  /** `(index 10 to 20) or resname ALA` holds for index 15 with residue ALA
      and fails for index 25 with residue GLU. */
  lemma SampleEval()
    ensures ParseSelection("(index 10 to 20) or resname ALA").Ok?
    ensures Eval(ParseSelection("(index 10 to 20) or resname ALA").selection, State(15, "ALA", 10, "CA"))
    ensures !Eval(ParseSelection("(index 10 to 20) or resname ALA").selection, State(25, "GLU", 20, "CA"))
  {
    var e := Or([Braket(Index(Range(10, 20))), ResName(["ALA"])]);
    SampleTree(e);
    FromShow(e, "(index 10 to 20) or resname ALA");
    SampleTreeEval(e);
  }

  // ---------------------------------------------------------------------
  // Rejected queries

  /** A keyword for numbers followed by something that is not a number. */
  lemma KeywordNumbersMiss(kw: string, x: string)
    requires |x| > 0 && !IsSpace(x[0]) && !IsDigit(x[0])
    ensures ParseKeywordNumbers(kw + " " + x, kw) == Failed(Backtrack)
  {
    Assoc(kw, " ", x);
    PrefixRest(kw, " " + x);
    SkipNoSpace(x);
  }

  /** Every alternative of `parse_atom` backtracks. */
  lemma AtomFails(s: string)
    requires !HasPrefix(s, "all") && !HasPrefix(s, "protein") && !HasPrefix(s, "sidechain")
    requires !HasPrefix(s, "backbone") && !HasPrefix(s, "water") && !HasPrefix(s, "ion")
    requires !HasPrefix(s, "resname") && !HasPrefix(s, "index") && !HasPrefix(s, "name")
    requires ParseKeywordNumbers(s, "resid") == Failed(Backtrack)
    ensures ParseAtom(s) == Failed(Backtrack)
  {
  }

  /** Shared by both rejected `resid` queries: everything but `resid` is
      ruled out by the first or fourth character. */
  lemma OnlyResIdApplies(s: string)
    requires |s| >= 6 && s[..6] == "resid "
    ensures !HasPrefix(s, "all") && !HasPrefix(s, "protein") && !HasPrefix(s, "sidechain")
    ensures !HasPrefix(s, "backbone") && !HasPrefix(s, "water") && !HasPrefix(s, "ion")
    ensures !HasPrefix(s, "resname") && !HasPrefix(s, "index") && !HasPrefix(s, "name")
    ensures s[0] != '(' && !IsSpace(s[0]) && !HasPrefix(s, "not")
  {
    assert s[0] == s[..6][0] == 'r';
    assert s[3] == s[..6][3] == 'i';
    NotPrefixAt(s, "all", 0);
    NotPrefixAt(s, "protein", 0);
    NotPrefixAt(s, "sidechain", 0);
    NotPrefixAt(s, "backbone", 0);
    NotPrefixAt(s, "water", 0);
    NotPrefixAt(s, "ion", 0);
    NotPrefixAt(s, "resname", 3);
    NotPrefixAt(s, "index", 0);
    NotPrefixAt(s, "name", 0);
    NotPrefixAt(s, "not", 0);
  }

  /** `resid` followed by a keyword instead of a number is an error. */
  lemma RejectsResIdResName()
    ensures ParseSelection("resid resname") == Err
  {
    var s := "resid resname";
    assert s == "resid" + " " + "resname";
    KeywordNumbersMiss("resid", "resname");
    OnlyResIdApplies(s);
    AtomFails(s);
    AtomFailure(s, Backtrack);
  }

  /** A range needs its first bound. */
  lemma RejectsResIdTo()
    ensures ParseSelection("resid to 20") == Err
  {
    var s := "resid to 20";
    assert s == "resid" + " " + "to 20";
    KeywordNumbersMiss("resid", "to 20");
    OnlyResIdApplies(s);
    AtomFails(s);
    AtomFailure(s, Backtrack);
  }

  // ---------------------------------------------------------------------
  // Runs of blanks between tokens

  lemma BlanksThen(b: string, y: string)
    requires Blanks(b)
    requires y == [] || !IsSpace(y[0])
    ensures SkipSpaces(b + y) == y
  {
    SpanConcat(b, y, Space);
  }

  lemma MoreIdentsRun(b: string, w: string, u: string, ws: seq<string>, t: string)
    requires Blanks(b) && |b| > 0
    requires ValidIdent(w)
    requires u == [] || !IsAlnum(u[0])
    requires ParseMoreIdents(u) == Done(ws, t)
    ensures ParseMoreIdents(b + (w + u)) == Done([w] + ws, t)
  {
    assert (w + u)[0] == w[0];
    BlanksThen(b, w + u);
    IdentRT(w, u);
  }

  /** Blanks and then a connective end an identifier list. */
  lemma IdentsStopRun(b: string, y: string)
    requires Blanks(b) && |b| > 0
    requires HasPrefix(y, "or ")
    ensures ParseMoreIdents(b + y) == Done([], b + y)
    ensures ParseAndTail(b + y) == Done([], b + y)
  {
    BlanksThen(b, y);
    ConnectiveFacts(y);
    NotPrefixAt(y, "and", 0);
  }

  lemma KeywordIdentsRun(kw: string, b: string, x: string, ns: seq<string>, t: string)
    requires Blanks(b) && |b| > 0
    requires |x| > 0 && !IsSpace(x[0])
    requires ParseIdentList(x) == Done(ns, t)
    ensures ParseKeywordIdents(kw + (b + x), kw) == Done(ns, t)
  {
    PrefixRest(kw, b + x);
    BlanksThen(b, x);
  }

  /** One `or` operand reached through the skips `parse_or` performs. */
  lemma OrTailSkips(s: string, x: string, w: string, c: Selection, t: string)
    requires StartsWithSpace(s) && SkipSpaces(s) == "or" + x
    requires StartsWithSpace(x) && SkipSpaces(x) == w
    requires ParseAnd(w) == Done(c, t)
    requires ParseOrTail(t) == Done([], t)
    ensures ParseOrTail(s) == Done([c], t)
  {
    PrefixRest("or", x);
    var s1 := SkipSpaces(s);
    assert HasPrefix(s1, "or") && s1[2..] == x;
    assert ParseAnd(SkipSpaces(s1[2..])) == Done(c, t);
    assert [c] + [] == [c];
  }

  lemma RunStarts(b: string, y: string)
    requires Blanks(b) && |b| > 0
    requires y == [] || !IsSpace(y[0])
    ensures StartsWithSpace(b + y) && SkipSpaces(b + y) == y
  {
    BlanksThen(b, y);
    assert (b + y)[0] == b[0];
  }

  lemma OrTailRun(b1: string, b2: string, w: string, c: Selection, t: string)
    requires Blanks(b1) && |b1| > 0 && Blanks(b2) && |b2| > 0
    requires |w| > 0 && !IsSpace(w[0])
    requires ParseAnd(w) == Done(c, t)
    requires ParseOrTail(t) == Done([], t)
    ensures ParseOrTail(b1 + ("or" + (b2 + w))) == Done([c], t)
  {
    RunStarts(b1, "or" + (b2 + w));
    RunStarts(b2, w);
    OrTailSkips(b1 + ("or" + (b2 + w)), b2 + w, w, c, t);
  }

  /** A query that is one keyword predicate and trailing blanks. */
  lemma AtomSelectionPadded(s: string, e: Selection, pad: string)
    requires |s| > 0 && s[0] != '(' && !IsSpace(s[0]) && !HasPrefix(s, "not")
    requires Blanks(pad)
    requires ParseAtom(s) == Done(e, pad)
    ensures ParseSelection(s) == Ok(e)
  {
    AtomStep(s, e, pad);
    NoNotStep("", s, e, pad);
    assert "" + s == s;
    AndTailStop(pad);
    AndStep(s, e, pad, [], pad);
    OrTailStop(pad);
    OrStep(s, e, pad, [], pad);
    ExprStep(s, e, pad);
    BlanksSkip(pad);
  }

  lemma NameChosen(s: string, ns: seq<string>, t: string)
    requires HasPrefix(s, "name")
    requires ParseKeywordIdents(s, "name") == Done(ns, t)
    ensures ParseAtom(s) == Done(Name(ns), t)
    ensures s[0] != '(' && !IsSpace(s[0]) && !HasPrefix(s, "not")
  {
    assert s[0] == s[..4][0] == 'n';
    assert s[1] == s[..4][1] == 'a';
    NotPrefixAt(s, "all", 0);
    NotPrefixAt(s, "protein", 0);
    NotPrefixAt(s, "sidechain", 0);
    NotPrefixAt(s, "backbone", 0);
    NotPrefixAt(s, "water", 0);
    NotPrefixAt(s, "ion", 0);
    NotPrefixAt(s, "resname", 0);
    NotPrefixAt(s, "resid", 0);
    NotPrefixAt(s, "index", 0);
    NotPrefixAt(s, "not", 1);
  }

  lemma ResNameChosen(s: string, ns: seq<string>, t: string)
    requires HasPrefix(s, "resname")
    requires ParseKeywordIdents(s, "resname") == Done(ns, t)
    ensures ParseAtom(s) == Done(ResName(ns), t)
    ensures s[0] != '(' && !IsSpace(s[0]) && !HasPrefix(s, "not")
  {
    assert s[0] == s[..7][0] == 'r';
    NotPrefixAt(s, "all", 0);
    NotPrefixAt(s, "protein", 0);
    NotPrefixAt(s, "sidechain", 0);
    NotPrefixAt(s, "backbone", 0);
    NotPrefixAt(s, "water", 0);
    NotPrefixAt(s, "ion", 0);
    NotPrefixAt(s, "not", 0);
  }

  /** An identifier list ended by a run of blanks. */
  lemma OneIdentPadded(y: string, pad: string)
    requires ValidIdent(y) && Blanks(pad)
    ensures ParseIdentList(y + pad) == Done([y], pad)
  {
    MoreIdentsStop(pad);
    IdentListStep(y, pad, [], pad);
    assert [y] + [] == [y];
  }

  /** Two identifiers apart by blanks, with only blanks after them. */
  lemma TwoIdentsPadded(b2: string, x: string, y: string, pad: string)
    requires Blanks(b2) && |b2| > 0 && Blanks(pad)
    requires ValidIdent(x) && ValidIdent(y)
    ensures ParseIdentList(x + (b2 + (y + pad))) == Done([x, y], pad)
  {
    OneMoreIdentPadded(b2, y, pad);
    IdentListStep(x, b2 + (y + pad), [y], pad);
    assert [x] + [y] == [x, y];
  }

  lemma OneMoreIdentPadded(b2: string, y: string, pad: string)
    requires Blanks(b2) && |b2| > 0 && Blanks(pad)
    requires ValidIdent(y)
    ensures ParseMoreIdents(b2 + (y + pad)) == Done([y], pad)
    ensures !IsAlnum((b2 + (y + pad))[0])
  {
    MoreIdentsStop(pad);
    MoreIdentsRun(b2, y, pad, [], pad);
    assert [y] + [] == [y];
    assert (b2 + (y + pad))[0] == b2[0];
  }

  /** `name`, two identifiers and blank runs of any length around them. */
  lemma NamesPadded(b0: string, b1: string, b2: string, x: string, y: string, pad: string)
    requires Blanks(b0) && Blanks(b1) && |b1| > 0 && Blanks(b2) && |b2| > 0 && Blanks(pad)
    requires ValidIdent(x) && ValidIdent(y)
    ensures ParseSelection(b0 + ("name" + (b1 + (x + (b2 + (y + pad)))))) == Ok(Name([x, y]))
  {
    var u := b2 + (y + pad);
    TwoIdentsPadded(b2, x, y, pad);
    KeywordIdentsRun("name", b1, x + u, [x, y], pad);
    var s := "name" + (b1 + (x + u));
    PrefixRest("name", b1 + (x + u));
    NameChosen(s, [x, y], pad);
    AtomSelectionPadded(s, Name([x, y]), pad);
    LeadingBlanks(b0, s);
  }

  /** One `resname` operand with blank runs, as the second operand of `or`. */
  lemma ResNameOperand(b: string, y: string, pad: string)
    requires Blanks(b) && |b| > 0 && Blanks(pad) && ValidIdent(y)
    ensures ParseAnd("resname" + (b + (y + pad))) == Done(ResName([y]), pad)
    ensures |"resname" + (b + (y + pad))| > 0 && !IsSpace(("resname" + (b + (y + pad)))[0])
  {
    OneIdentPadded(y, pad);
    KeywordIdentsRun("resname", b, y + pad, [y], pad);
    var s := "resname" + (b + (y + pad));
    PrefixRest("resname", b + (y + pad));
    ResNameChosen(s, [y], pad);
    AtomStep(s, ResName([y]), pad);
    NoNotStep("", s, ResName([y]), pad);
    assert "" + s == s;
    AndTailStop(pad);
    AndStep(s, ResName([y]), pad, [], pad);
  }

  /** The first `resname` operand, up to the blanks before `or`. */
  lemma ResNameBeforeOr(b1: string, x: string, u: string)
    requires Blanks(b1) && |b1| > 0 && ValidIdent(x)
    requires |u| > 0 && IsSpace(u[0])
    requires ParseMoreIdents(u) == Done([], u) && ParseAndTail(u) == Done([], u)
    ensures ParseAnd("resname" + (b1 + (x + u))) == Done(ResName([x]), u)
    ensures HasPrefix("resname" + (b1 + (x + u)), "resname")
  {
    IdentListStep(x, u, [], u);
    assert [x] + [] == [x];
    KeywordIdentsRun("resname", b1, x + u, [x], u);
    var s := "resname" + (b1 + (x + u));
    PrefixRest("resname", b1 + (x + u));
    ResNameChosen(s, [x], u);
    AtomStep(s, ResName([x]), u);
    NoNotStep("", s, ResName([x]), u);
    assert "" + s == s;
    AndStep(s, ResName([x]), u, [], u);
  }

  /** The `or` operand `w` after the blanks that follow `resname x`. */
  lemma OrOperandAfter(b2: string, b3: string, w: string, c: Selection, pad: string)
    requires Blanks(pad) && Blanks(b2) && |b2| > 0 && Blanks(b3) && |b3| > 0
    requires |w| > 0 && !IsSpace(w[0]) && ParseAnd(w) == Done(c, pad)
    ensures ParseOrTail(b2 + ("or" + (b3 + w))) == Done([c], pad)
  {
    OrTailStop(pad);
    OrTailRun(b2, b3, w, c, pad);
  }

  /** The blanks before `or` end an identifier list and an `and` chain. */
  lemma ListEndsAtOr(b2: string, b3: string, w: string)
    requires Blanks(b2) && |b2| > 0 && |b3| > 0 && b3[0] == ' '
    ensures var u := b2 + ("or" + (b3 + w));
      |u| > 0 && IsSpace(u[0]) && ParseMoreIdents(u) == Done([], u) && ParseAndTail(u) == Done([], u)
  {
    var v := "or" + (b3 + w);
    assert HasPrefix(v, "or ") by { assert v[..3] == "or" + [b3[0]]; }
    IdentsStopRun(b2, v);
    assert (b2 + v)[0] == b2[0];
  }

  /** `resname x` followed by the rest `u` of an `or`. */
  lemma ResNameOr(b1: string, x: string, u: string, c: Selection, pad: string)
    requires Blanks(pad) && Blanks(b1) && |b1| > 0 && ValidIdent(x)
    requires |u| > 0 && IsSpace(u[0])
    requires ParseMoreIdents(u) == Done([], u) && ParseAndTail(u) == Done([], u)
    requires ParseOrTail(u) == Done([c], pad)
    ensures ParseSelection("resname" + (b1 + (x + u))) == Ok(Or([ResName([x]), c]))
  {
    ResNameBeforeOr(b1, x, u);
    TwoOperandOr("resname" + (b1 + (x + u)), ResName([x]), u, c, pad);
  }

  /** An and-level operand, one `or` operand and trailing blanks make a
      whole two-operand `Or`. */
  lemma TwoOperandOr(s: string, a: Selection, u: string, c: Selection, pad: string)
    requires Blanks(pad)
    requires ParseAnd(s) == Done(a, u) && ParseOrTail(u) == Done([c], pad)
    ensures ParseSelection(s) == Ok(Or([a, c]))
  {
    OrStep(s, a, u, [c], pad);
    assert [a] + [c] == [a, c];
    ExprStep(s, Or([a, c]), pad);
    BlanksSkip(pad);
  }

  /** `resname x or resname y` with blank runs of any length between and
      around the words. */
  lemma ResNamesOrPadded(b0: string, b1: string, b2: string, b3: string, b4: string,
                         x: string, y: string, pad: string)
    requires Blanks(b0) && Blanks(pad)
    requires Blanks(b1) && |b1| > 0 && Blanks(b2) && |b2| > 0
    requires Blanks(b3) && |b3| > 0 && b3[0] == ' ' && Blanks(b4) && |b4| > 0
    requires ValidIdent(x) && ValidIdent(y)
    ensures ParseSelection(b0 + ("resname" + (b1 + (x + (b2 + ("or" + (b3 + ("resname" + (b4 + (y + pad))))))))))
         == Ok(Or([ResName([x]), ResName([y])]))
  {
    var w := "resname" + (b4 + (y + pad));
    ResNameOperand(b4, y, pad);
    OrOperandAfter(b2, b3, w, ResName([y]), pad);
    ListEndsAtOr(b2, b3, w);
    var u := b2 + ("or" + (b3 + w));
    ResNameOr(b1, x, u, ResName([y]), pad);
    LeadingBlanks(b0, "resname" + (b1 + (x + u)));
  }

  lemma ParsesPaddedNames()
    ensures ParseSelection(" name  CA  CB ") == Ok(Name(["CA", "CB"]))
  {
    assert ValidIdent("CA") && ValidIdent("CB");
    assert Blanks(" ") && Blanks("  ");
    NamesPadded(" ", "  ", "  ", "CA", "CB", " ");
    PaddedNamesText();
  }

  lemma PaddedNamesText()
    ensures " " + ("name" + ("  " + ("CA" + ("  " + ("CB" + " "))))) == " name  CA  CB "
  {
  }

  lemma PaddedOrText()
    ensures "  " + ("resname" + ("   " + ("ALA" + ("  " + ("or" + ("  " + ("resname" + (" " + ("GLU" + " ")))))))))
         == "  resname   ALA  or  resname GLU "
  {
    PaddedOrTail();
  }

  lemma PaddedOrTail()
    ensures "ALA" + ("  " + ("or" + ("  " + ("resname" + (" " + ("GLU" + " "))))))
         == "ALA  or  resname GLU "
  {
    assert "resname" + (" " + ("GLU" + " ")) == "resname GLU ";
  }

  lemma ParsesPaddedOr()
    ensures ParseSelection("  resname   ALA  or  resname GLU ")
         == Ok(Or([ResName(["ALA"]), ResName(["GLU"])]))
  {
    assert ValidIdent("ALA") && ValidIdent("GLU");
    assert Blanks(" ") && Blanks("  ") && Blanks("   ");
    ResNamesOrPadded("  ", "   ", "  ", "  ", " ", "ALA", "GLU", " ");
    PaddedOrText();
  }

  // ---------------------------------------------------------------------
  // From text to selected atoms

  /** Only the `index` alternative of `parse_atom` can apply to text starting with `index `. */
  lemma OnlyIndexApplies(s: string)
    requires |s| >= 6 && s[..6] == "index "
    ensures !HasPrefix(s, "all") && !HasPrefix(s, "protein") && !HasPrefix(s, "sidechain")
    ensures !HasPrefix(s, "backbone") && !HasPrefix(s, "water") && !HasPrefix(s, "ion")
    ensures !HasPrefix(s, "resname") && !HasPrefix(s, "resid")
    ensures s[0] != '(' && !IsSpace(s[0]) && !HasPrefix(s, "not")
  {
    assert s[0] == s[..6][0] == 'i';
    assert s[1] == s[..6][1] == 'n';
    NotPrefixAt(s, "all", 0);
    NotPrefixAt(s, "protein", 0);
    NotPrefixAt(s, "sidechain", 0);
    NotPrefixAt(s, "backbone", 0);
    NotPrefixAt(s, "water", 0);
    NotPrefixAt(s, "ion", 1);
    NotPrefixAt(s, "resname", 0);
    NotPrefixAt(s, "resid", 0);
    NotPrefixAt(s, "not", 0);
  }

  /** `index` followed by a number list that takes the rest of the text. */
  lemma IndexTextSelection(x: string, ids: seq<nat>)
    requires |x| > 0 && !IsSpace(x[0])
    requires ParseNumbers(x) == Done(ids, [])
    ensures ParseSelection("index" + " " + x) == Ok(Index(ids))
  {
    var s := "index" + " " + x;
    KeywordNumbersStep("index", x, ids, []);
    assert s[..6] == "index ";
    OnlyIndexApplies(s);
    IndexChosen(s, ids, []);
    AtomSelection(s, Index(ids));
  }

  lemma IndexRangeParses(a: nat, b: nat)
    requires a <= UsizeMax && b <= UsizeMax
    ensures ParseSelection("index " + ShowNat(a) + " to " + ShowNat(b)) == Ok(Index(Range(a, b)))
  {
    var x := ShowNat(a) + " to " + ShowNat(b);
    PrintedRangeNumbers(a, b);
    IndexTextSelection(x, Range(a, b));
    IndexJoin(x, ShowNat(a), ShowNat(b));
  }

  /** The printed range `a to b` is a number list that takes the whole text. */
  lemma PrintedRangeNumbers(a: nat, b: nat)
    requires a <= UsizeMax && b <= UsizeMax
    ensures |ShowNat(a) + " to " + ShowNat(b)| > 0 && !IsSpace((ShowNat(a) + " to " + ShowNat(b))[0])
    ensures ParseNumbers(ShowNat(a) + " to " + ShowNat(b)) == Done(Range(a, b), [])
  {
    var x := ShowNat(a) + " to " + ShowNat(b);
    assert x + [] == x;
    ToRT(a, b, []);
  }

  lemma IndexJoin(x: string, p: string, q: string)
    requires x == p + " to " + q
    ensures "index " + p + " to " + q == "index" + " " + x
  {
    Assoc4("index ", p, " to ", q);
    assert "index " == "index" + " ";
  }

  /** `index a to b` parses to the inclusive range and selects exactly the
      indices from `a` to `b`; `a == b` gives the one-element range. */
  lemma IndexRangeSelects(a: nat, b: nat, st: State)
    requires a <= b <= UsizeMax
    ensures ParseSelection("index " + ShowNat(a) + " to " + ShowNat(b)) == Ok(Index(Range(a, b)))
    ensures Eval(Index(Range(a, b)), st) <==> a <= st.index <= b
  {
    IndexRangeParses(a, b);
    EvalIndexRange(a, b, st);
  }


}
