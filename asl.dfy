/**
 * The Atom Selection Language of mogura-asl: a recursive-descent parser that
 * turns query text such as `(resname ALA GLU) and name CA` into a
 * `Selection` tree, and the evaluator over a small atom record that the
 * crate's tests define.
 *
 * The parser is built from nom combinators in the original; here every
 * combinator is written out by its observable behaviour on the remaining
 * input: `Done(value, rest)` for success, `Failed(Backtrack)` for nom's
 * recoverable error (which `alt`, `many0` and `separated_list1` catch), and
 * `Failed(Overflow)` for the panic of the `unwrap` in `parse_usize`, which
 * nothing catches.
 */
module Asl {

  /** The largest `usize` of a 64-bit target. */
  const UsizeMax: nat := 0xFFFF_FFFF_FFFF_FFFF

  datatype Selection =
    | All
    | ResName(names: seq<string>)
    | ResId(ids: seq<nat>)
    | Name(names: seq<string>)
    | Index(ids: seq<nat>)
    | Protein
    | Water
    | Ion
    | Backbone
    | Sidechain
    | Not(inner: Selection)
    | And(children: seq<Selection>)
    | Or(children: seq<Selection>)
    | Braket(inner: Selection)

  /** Why a parser did not succeed. */
  datatype Fail = Backtrack | Overflow

  datatype Parsed<T> = Done(value: T, rest: string) | Failed(fail: Fail)

  /** What `parse_selection` returns: `Err` stands for its error string (whose
      wording comes from nom and is not modelled), `Panicked` for the abort of
      the `unwrap` on a number that does not fit in `usize`. */
  datatype Outcome = Ok(selection: Selection) | Err | Panicked

  // ---------------------------------------------------------------------
  // Characters and the character-class combinators of nom

  /** nom's `space0`/`space1` accept blanks and tabs. */
  predicate IsSpace(c: char) { c == ' ' || c == '\t' }

  predicate IsDigit(c: char) { '0' <= c <= '9' }

  /** nom's `alphanumeric1` accepts ASCII letters and digits. */
  predicate IsAlnum(c: char) { IsDigit(c) || 'a' <= c <= 'z' || 'A' <= c <= 'Z' }

  datatype CharClass = Space | Digit | Alnum

  predicate InClass(c: char, k: CharClass)
  {
    match k
    case Space => IsSpace(c)
    case Digit => IsDigit(c)
    case Alnum => IsAlnum(c)
  }

  /** Length of the longest prefix of `s` made of characters of class `k`. */
  function Span(s: string, k: CharClass): (n: nat)
    ensures n <= |s|
    ensures forall i :: 0 <= i < n ==> InClass(s[i], k)
    ensures n < |s| ==> !InClass(s[n], k)
  {
    if s == [] || !InClass(s[0], k) then 0 else 1 + Span(s[1..], k)
  }

  /** `space0`: drops the leading blanks. */
  function SkipSpaces(s: string): (r: string)
    ensures |r| <= |s|
    ensures r == s[Span(s, Space)..]
  {
    s[Span(s, Space)..]
  }

  /** `space1` succeeds when at least one blank leads. */
  predicate StartsWithSpace(s: string) { |s| > 0 && IsSpace(s[0]) }

  /** `tag(t)`: the input starts with `t`. */
  predicate HasPrefix(s: string, t: string) { |t| <= |s| && s[..|t|] == t }

  // ---------------------------------------------------------------------
  // Numbers

  function DigitValue(c: char): nat
    requires IsDigit(c)
  {
    (c as int - '0' as int) as nat
  }

  /** The number a string of decimal digits denotes. */
  function DigitsValue(d: string): nat
    requires forall i :: 0 <= i < |d| ==> IsDigit(d[i])
  {
    if d == [] then 0 else DigitsValue(d[..|d| - 1]) * 10 + DigitValue(d[|d| - 1])
  }

  /** `parse_usize`: `digit1` and then `str::parse::<usize>().unwrap()`,
      which panics when the digits denote a number beyond `usize`. */
  function ParseUsize(s: string): (r: Parsed<nat>)
    ensures r.Done? ==> |r.rest| < |s| && r.value <= UsizeMax
  {
    var n := Span(s, Digit);
    if n == 0 then Failed(Backtrack)
    else
      var v := DigitsValue(s[..n]);
      if v > UsizeMax then Failed(Overflow) else Done(v, s[n..])
  }

  /** `(first..=last).collect()`: the inclusive ascending run, empty when
      `first > last`. */
  function Range(first: nat, last: nat): (r: seq<nat>)
    ensures |r| == if first <= last then last - first + 1 else 0
    ensures forall i :: 0 <= i < |r| ==> r[i] == first + i
    decreases last + 1 - first
  {
    if first > last then [] else [first] + Range(first + 1, last)
  }

  lemma RangeAtMost(first: nat, last: nat)
    ensures forall i :: 0 <= i < |Range(first, last)| ==> Range(first, last)[i] <= last
  {
  }

  lemma ConsAtMost(n: nat, ns: seq<nat>, m: nat)
    requires n <= m && forall i :: 0 <= i < |ns| ==> ns[i] <= m
    ensures forall i :: 0 <= i < |[n] + ns| ==> ([n] + ns)[i] <= m
  {
  }

  /** The `space1 "to" space1 usize` clause of `parse_numbers`. */
  function ParseToClause(s: string): (r: Parsed<nat>)
    ensures r.Done? ==> |r.rest| < |s| && r.value <= UsizeMax
  {
    if !StartsWithSpace(s) then Failed(Backtrack)
    else
      var s1 := SkipSpaces(s);
      if !HasPrefix(s1, "to") then Failed(Backtrack)
      else
        var s2 := s1[2..];
        if !StartsWithSpace(s2) then Failed(Backtrack)
        else ParseUsize(SkipSpaces(s2))
  }

  /** `many0(preceded(space1, parse_usize))`. */
  function ParseMoreNumbers(s: string): (r: Parsed<seq<nat>>)
    ensures r.Done? ==> |r.rest| <= |s| && forall i :: 0 <= i < |r.value| ==> r.value[i] <= UsizeMax
    decreases |s|
  {
    if !StartsWithSpace(s) then Done([], s)
    else
      match ParseUsize(SkipSpaces(s))
      case Failed(Backtrack) => Done([], s)
      case Failed(Overflow) => Failed(Overflow)
      case Done(n, s1) =>
        match ParseMoreNumbers(s1)
        case Done(ns, s2) => Done([n] + ns, s2)
        case Failed(f) => Failed(f)
  }

  /** `parse_numbers`: a number followed either by `to` and a second number
      (an inclusive range) or by further blank-separated numbers. */
  function ParseNumbers(s: string): (r: Parsed<seq<nat>>)
    ensures r.Done? ==> |r.rest| < |s| && forall i :: 0 <= i < |r.value| ==> r.value[i] <= UsizeMax
  {
    match ParseUsize(s)
    case Failed(f) => Failed(f)
    case Done(first, s1) =>
      match ParseToClause(s1)
      case Done(last, s2) => RangeAtMost(first, last); Done(Range(first, last), s2)
      case Failed(Overflow) => Failed(Overflow)
      case Failed(Backtrack) =>
        match ParseMoreNumbers(s1)
        case Done(rest, s2) => ConsAtMost(first, rest, UsizeMax); Done([first] + rest, s2)
        case Failed(f) => Failed(f)
  }

  // ---------------------------------------------------------------------
  // Identifiers

  predicate IsReserved(w: string) { w == "and" || w == "or" || w == "not" || w == "to" }

  /** What `parse_identifier` accepts. */
  predicate ValidIdent(w: string)
  {
    |w| > 0 && (forall i :: 0 <= i < |w| ==> IsAlnum(w[i])) && !IsReserved(w)
  }

  /** `parse_identifier`: `alphanumeric1`, refused when it is a reserved word. */
  function ParseIdent(s: string): (r: Parsed<string>)
    ensures r.Done? ==> |r.rest| < |s| && ValidIdent(r.value) && s == r.value + r.rest
    ensures r.Failed? ==> r.fail == Backtrack
  {
    var n := Span(s, Alnum);
    if n == 0 || IsReserved(s[..n]) then Failed(Backtrack) else Done(s[..n], s[n..])
  }

  /** The tail loop of `separated_list1(space1, parse_identifier)`: it stops,
      without consuming the separator, as soon as a separator or an
      identifier is missing. */
  function ParseMoreIdents(s: string): (r: Parsed<seq<string>>)
    ensures r.Done? && |r.rest| <= |s|
    ensures forall i :: 0 <= i < |r.value| ==> ValidIdent(r.value[i])
    decreases |s|
  {
    if !StartsWithSpace(s) then Done([], s)
    else
      match ParseIdent(SkipSpaces(s))
      case Failed(_) => Done([], s)
      case Done(w, s1) =>
        var more := ParseMoreIdents(s1);
        ConsValidIdents(w, more.value);
        Done([w] + more.value, more.rest)
  }

  lemma ConsValidIdents(w: string, ws: seq<string>)
    requires ValidIdent(w) && forall i :: 0 <= i < |ws| ==> ValidIdent(ws[i])
    ensures forall i :: 0 <= i < |[w] + ws| ==> ValidIdent(([w] + ws)[i])
  {
  }

  /** `separated_list1(space1, parse_identifier)`. */
  function ParseIdentList(s: string): (r: Parsed<seq<string>>)
    ensures r.Done? ==> |r.rest| < |s| && |r.value| > 0
    ensures r.Done? ==> forall i :: 0 <= i < |r.value| ==> ValidIdent(r.value[i])
    ensures r.Failed? ==> r.fail == Backtrack
  {
    match ParseIdent(s)
    case Failed(f) => Failed(f)
    case Done(w, s1) =>
      var more := ParseMoreIdents(s1);
      Done([w] + more.value, more.rest)
  }

  /** `preceded(tag(keyword), preceded(space1, separated_list1(...)))`. */
  function ParseKeywordIdents(s: string, keyword: string): (r: Parsed<seq<string>>)
    ensures r.Done? ==> |r.rest| < |s| && |r.value| > 0
    ensures r.Done? ==> forall i :: 0 <= i < |r.value| ==> ValidIdent(r.value[i])
    ensures r.Failed? ==> r.fail == Backtrack
  {
    if !HasPrefix(s, keyword) then Failed(Backtrack)
    else
      var s1 := s[|keyword|..];
      if !StartsWithSpace(s1) then Failed(Backtrack) else ParseIdentList(SkipSpaces(s1))
  }

  /** `preceded(tag(keyword), preceded(space1, parse_numbers))`. */
  function ParseKeywordNumbers(s: string, keyword: string): (r: Parsed<seq<nat>>)
    ensures r.Done? ==> |r.rest| < |s| && forall i :: 0 <= i < |r.value| ==> r.value[i] <= UsizeMax
  {
    if !HasPrefix(s, keyword) then Failed(Backtrack)
    else
      var s1 := s[|keyword|..];
      if !StartsWithSpace(s1) then Failed(Backtrack) else ParseNumbers(SkipSpaces(s1))
  }

  // ---------------------------------------------------------------------
  // The shape of every tree the parser can produce

  /** A primary: a keyword predicate with the payload its parser admits, or
      a bracketed expression. */
  predicate IsPrimary(e: Selection)
    decreases e, 0
  {
    match e
    case All => true
    case Protein => true
    case Water => true
    case Ion => true
    case Backbone => true
    case Sidechain => true
    case ResName(ns) => |ns| > 0 && forall i :: 0 <= i < |ns| ==> ValidIdent(ns[i])
    case Name(ns) => |ns| > 0 && forall i :: 0 <= i < |ns| ==> ValidIdent(ns[i])
    case ResId(ids) => forall i :: 0 <= i < |ids| ==> ids[i] <= UsizeMax
    case Index(ids) => forall i :: 0 <= i < |ids| ==> ids[i] <= UsizeMax
    case Braket(x) => IsOrLevel(x)
    case Not(_) => false
    case And(_) => false
    case Or(_) => false
  }

  /** Any number of `Not` around a primary. */
  predicate IsNotLevel(e: Selection)
    decreases e, 1
  {
    if e.Not? then IsNotLevel(e.inner) else IsPrimary(e)
  }

  /** An `And` of at least two not-level operands, or a not-level tree. */
  predicate IsAndLevel(e: Selection)
    decreases e, 2
  {
    if e.And? then |e.children| >= 2 && forall i :: 0 <= i < |e.children| ==> IsNotLevel(e.children[i])
    else IsNotLevel(e)
  }

  /** An `Or` of at least two and-level operands, or an and-level tree. */
  predicate IsOrLevel(e: Selection)
    decreases e, 3
  {
    if e.Or? then |e.children| >= 2 && forall i :: 0 <= i < |e.children| ==> IsAndLevel(e.children[i])
    else IsAndLevel(e)
  }

  // ---------------------------------------------------------------------
  // The grammar

  /** `parse_atom`: `alt` over the ten keyword parsers, in the source's order. */
  function ParseAtom(s: string): (r: Parsed<Selection>)
    ensures r.Done? ==> |r.rest| < |s| && IsPrimary(r.value) && !r.value.Braket?
  {
    if HasPrefix(s, "all") then Done(All, s[3..])
    else if HasPrefix(s, "protein") then Done(Protein, s[7..])
    else if HasPrefix(s, "sidechain") then Done(Sidechain, s[9..])
    else if HasPrefix(s, "backbone") then Done(Backbone, s[8..])
    else if HasPrefix(s, "water") then Done(Water, s[5..])
    else if HasPrefix(s, "ion") then Done(Ion, s[3..])
    else match ParseKeywordIdents(s, "resname")
    case Done(ns, r) => Done(ResName(ns), r)
    case Failed(_) =>
      match ParseKeywordNumbers(s, "resid")
      case Done(ids, r) => Done(ResId(ids), r)
      case Failed(Overflow) => Failed(Overflow)
      case Failed(Backtrack) =>
        match ParseKeywordNumbers(s, "index")
        case Done(ids, r) => Done(Index(ids), r)
        case Failed(Overflow) => Failed(Overflow)
        case Failed(Backtrack) =>
          match ParseKeywordIdents(s, "name")
          case Done(ns, r) => Done(Name(ns), r)
          case Failed(f) => Failed(f)
  }

  /** `many0(preceded(space0, tag("not")))`: how many `not` lead, and what
      follows the last of them. */
  function CountNots(s: string): (r: (nat, string))
    ensures |r.1| <= |s|
    decreases |s|
  {
    var s1 := SkipSpaces(s);
    if HasPrefix(s1, "not") then var more := CountNots(s1[3..]); (more.0 + 1, more.1)
    else (0, s)
  }

  /** The fold of `parse_not`: `k` nested `Not` around `e`. */
  function Nots(k: nat, e: Selection): Selection
  {
    if k == 0 then e else Not(Nots(k - 1, e))
  }

  /** `parse_expr`: an or-expression followed by optional blanks. */
  function ParseExpr(s: string): (r: Parsed<Selection>)
    ensures r.Done? ==> |r.rest| <= |s| && IsOrLevel(r.value)
    decreases |s|, 7
  {
    match ParseOr(s)
    case Done(e, s1) => Done(e, SkipSpaces(s1))
    case Failed(f) => Failed(f)
  }

  /** `parse_or`: the operands of a flat n-ary `Or`, a lone operand unwrapped. */
  function ParseOr(s: string): (r: Parsed<Selection>)
    ensures r.Done? ==> |r.rest| <= |s| && IsOrLevel(r.value)
    decreases |s|, 6
  {
    match ParseAnd(s)
    case Failed(f) => Failed(f)
    case Done(init, s1) =>
      match ParseOrTail(s1)
      case Failed(f) => Failed(f)
      case Done(rest, s2) =>
        LevelsNest(init);
        if rest == [] then Done(init, s2) else Done(Or([init] + rest), s2)
  }

  /** `many0(preceded(space1, preceded(tag("or"), preceded(space1, parse_and))))`. */
  function ParseOrTail(s: string): (r: Parsed<seq<Selection>>)
    ensures r.Done? ==> |r.rest| <= |s| && forall i :: 0 <= i < |r.value| ==> IsAndLevel(r.value[i])
    decreases |s|, 5
  {
    if !StartsWithSpace(s) then Done([], s)
    else
      var s1 := SkipSpaces(s);
      if !HasPrefix(s1, "or") then Done([], s)
      else
        var s2 := s1[2..];
        if !StartsWithSpace(s2) then Done([], s)
        else
          match ParseAnd(SkipSpaces(s2))
          case Failed(Backtrack) => Done([], s)
          case Failed(Overflow) => Failed(Overflow)
          case Done(e, s3) =>
            match ParseOrTail(s3)
            case Failed(f) => Failed(f)
            case Done(es, s4) => Done([e] + es, s4)
  }

  /** `parse_and`: the operands of a flat n-ary `And`, a lone operand unwrapped. */
  function ParseAnd(s: string): (r: Parsed<Selection>)
    ensures r.Done? ==> |r.rest| <= |s| && IsAndLevel(r.value)
    decreases |s|, 4
  {
    match ParseNot(s)
    case Failed(f) => Failed(f)
    case Done(init, s1) =>
      match ParseAndTail(s1)
      case Failed(f) => Failed(f)
      case Done(rest, s2) =>
        LevelsNest(init);
        if rest == [] then Done(init, s2) else Done(And([init] + rest), s2)
  }

  /** `many0(preceded(space1, preceded(tag("and"), preceded(space1, parse_not))))`. */
  function ParseAndTail(s: string): (r: Parsed<seq<Selection>>)
    ensures r.Done? ==> |r.rest| <= |s| && forall i :: 0 <= i < |r.value| ==> IsNotLevel(r.value[i])
    decreases |s|, 3
  {
    if !StartsWithSpace(s) then Done([], s)
    else
      var s1 := SkipSpaces(s);
      if !HasPrefix(s1, "and") then Done([], s)
      else
        var s2 := s1[3..];
        if !StartsWithSpace(s2) then Done([], s)
        else
          match ParseNot(SkipSpaces(s2))
          case Failed(Backtrack) => Done([], s)
          case Failed(Overflow) => Failed(Overflow)
          case Done(e, s3) =>
            match ParseAndTail(s3)
            case Failed(f) => Failed(f)
            case Done(es, s4) => Done([e] + es, s4)
  }

  /** `parse_not`: leading `not` keywords, then a primary. */
  function ParseNot(s: string): (r: Parsed<Selection>)
    ensures r.Done? ==> |r.rest| <= |s| && IsNotLevel(r.value)
    decreases |s|, 2
  {
    var (k, s1) := CountNots(s);
    match ParsePrimary(s1)
    case Failed(f) => Failed(f)
    case Done(p, s2) => NotsLevel(k, p); Done(Nots(k, p), s2)
  }

  /** `parse_primary`: optional blanks, then a bracketed expression or a
      keyword predicate. */
  function ParsePrimary(s: string): (r: Parsed<Selection>)
    ensures r.Done? ==> |r.rest| < |s| && IsPrimary(r.value)
    decreases |s|, 1
  {
    var s1 := SkipSpaces(s);
    match ParseBraket(s1)
    case Done(e, s2) => Done(e, s2)
    case Failed(Overflow) => Failed(Overflow)
    case Failed(Backtrack) => ParseAtom(s1)
  }

  /** `parse_braket`: `(`, an expression, `)`. */
  function ParseBraket(s: string): (r: Parsed<Selection>)
    ensures r.Done? ==> |r.rest| < |s| && IsPrimary(r.value)
    ensures r.Done? ==> r.value.Braket? && IsOrLevel(r.value.inner)
    decreases |s|, 0
  {
    if |s| == 0 || s[0] != '(' then Failed(Backtrack)
    else
      match ParseExpr(s[1..])
      case Failed(f) => Failed(f)
      case Done(e, s1) =>
        if |s1| == 0 || s1[0] != ')' then Failed(Backtrack) else Done(Braket(e), s1[1..])
  }

  /** Each level of the grammar includes the tighter ones. */
  lemma LevelsNest(e: Selection)
    ensures IsPrimary(e) ==> IsNotLevel(e)
    ensures IsNotLevel(e) ==> IsAndLevel(e)
    ensures IsAndLevel(e) ==> IsOrLevel(e)
  {
    if e.And? || e.Or? {
      assert !IsPrimary(e) && !IsNotLevel(e);
    }
  }

  lemma {:induction false} NotsLevel(k: nat, p: Selection)
    requires IsPrimary(p)
    ensures IsNotLevel(Nots(k, p))
  {
    if k > 0 { NotsLevel(k - 1, p); }
  }

  /** `parse_selection`: `all_consuming(parse_expr)`. */
  function ParseSelection(s: string): (r: Outcome)
    ensures r.Ok? <==> (ParseExpr(s).Done? && ParseExpr(s).rest == [])
    ensures r.Ok? ==> r.selection == ParseExpr(s).value && IsOrLevel(r.selection)
    ensures r.Panicked? <==> ParseExpr(s) == Failed(Overflow)
  {
    match ParseExpr(s)
    case Done(e, rest) => if rest == [] then Ok(e) else Err
    case Failed(Backtrack) => Err
    case Failed(Overflow) => Panicked
  }

  /** A leading blank changes neither the `not` count nor the primary after it. */
  lemma NotLead(c: char, s: string)
    requires IsSpace(c)
    ensures ParseNot([c] + s) == ParseNot(s)
  {
    SkipLead(c, s);
    var (k, r) := CountNots(s);
    if !HasPrefix(SkipSpaces(s), "not") {
      assert CountNots([c] + s) == (0, [c] + s);
      SkipLead(c, r);
    }
  }

  /** A blank in front of the query changes nothing: `space0` at the start
      of every primary and before every `not` absorbs it. */
  lemma LeadingBlank(c: char, s: string)
    requires IsSpace(c)
    ensures ParseSelection([c] + s) == ParseSelection(s)
  {
    NotLead(c, s);
    assert ParseAnd([c] + s) == ParseAnd(s);
    assert ParseOr([c] + s) == ParseOr(s);
  }


  lemma SkipLead(c: char, s: string)
    requires IsSpace(c)
    ensures SkipSpaces([c] + s) == SkipSpaces(s)
  {
    assert ([c] + s)[1..] == s;
    var n := Span(s, Space);
    assert Span([c] + s, Space) == n + 1;
    assert ([c] + s)[n + 1..] == s[n..];
  }

  // ---------------------------------------------------------------------
  // The evaluator of the crate's tests

  /** The atom record the evaluator reads. */
  datatype State = State(index: nat, resname: string, resid: nat, name: string)

  /** `eval`: list predicates test membership of the matching field, the
      connectives are the boolean ones, and the five residue-class keywords
      fall into the catch-all arm, which answers `false`. */
  function Eval(e: Selection, st: State): bool
  {
    match e
    case All => true
    case ResName(ns) => st.resname in ns
    case ResId(ids) => st.resid in ids
    case Name(ns) => st.name in ns
    case Index(ids) => st.index in ids
    case Not(x) => !Eval(x, st)
    case And(cs) => forall i :: 0 <= i < |cs| ==> Eval(cs[i], st)
    case Or(cs) => exists i :: 0 <= i < |cs| && Eval(cs[i], st)
    case Braket(x) => Eval(x, st)
    case Protein => false
    case Water => false
    case Ion => false
    case Backbone => false
    case Sidechain => false
  }

  /** `k` leading `not`s negate exactly when `k` is odd. */
  lemma {:induction false} EvalNots(k: nat, p: Selection, st: State)
    ensures Eval(Nots(k, p), st) <==> (Eval(p, st) <==> k % 2 == 0)
  {
    if k > 0 { EvalNots(k - 1, p, st); }
  }

  /** An index range selects exactly the atoms whose index lies in it. */
  lemma EvalIndexRange(a: nat, b: nat, st: State)
    ensures Eval(Index(Range(a, b)), st) <==> a <= st.index <= b
  {
    var r := Range(a, b);
    if a <= st.index <= b {
      assert r[st.index - a] == st.index;
    }
  }
}
