/**
 * The chemical elements of the structure model: the `Element` enum, whose
 * discriminant is the atomic number, the table `ELEMENT_SYMBOLS` and the
 * three conversions between elements, symbols and atom names.
 */
module Elements {
  import opened Common

  /** An `Element`, identified by its discriminant: `H = 1` up to `Og = 118`. */
  type Element = z: int | 1 <= z <= 118 witness 1

  const H: Element := 1
  const He: Element := 2
  const C: Element := 6
  const N: Element := 7
  const O: Element := 8
  const S: Element := 16
  const Og: Element := 118

  /** `ELEMENT_SYMBOLS`: the upper-case symbols in atomic-number order,
      written out ten to a row. */
  const ElementSymbols: seq<string> :=
    SymbolRow0 + SymbolRow1 + SymbolRow2 + SymbolRow3 + SymbolRow4 + SymbolRow5 +
    SymbolRow6 + SymbolRow7 + SymbolRow8 + SymbolRow9 + SymbolRow10 + SymbolRow11

  const SymbolRow0: seq<string> := ["H", "HE", "LI", "BE", "B", "C", "N", "O", "F", "NE"]
  const SymbolRow1: seq<string> := ["NA", "MG", "AL", "SI", "P", "S", "CL", "AR", "K", "CA"]
  const SymbolRow2: seq<string> := ["SC", "TI", "V", "CR", "MN", "FE", "CO", "NI", "CU", "ZN"]
  const SymbolRow3: seq<string> := ["GA", "GE", "AS", "SE", "BR", "KR", "RB", "SR", "Y", "ZR"]
  const SymbolRow4: seq<string> := ["NB", "MO", "TC", "RU", "RH", "PD", "AG", "CD", "IN", "SN"]
  const SymbolRow5: seq<string> := ["SB", "TE", "I", "XE", "CS", "BA", "LA", "CE", "PR", "ND"]
  const SymbolRow6: seq<string> := ["PM", "SM", "EU", "GD", "TB", "DY", "HO", "ER", "TM", "YB"]
  const SymbolRow7: seq<string> := ["LU", "HF", "TA", "W", "RE", "OS", "IR", "PT", "AU", "HG"]
  const SymbolRow8: seq<string> := ["TL", "PB", "BI", "PO", "AT", "RN", "FR", "RA", "AC", "TH"]
  const SymbolRow9: seq<string> := ["PA", "U", "NP", "PU", "AM", "CM", "BK", "CF", "ES", "FM"]
  const SymbolRow10: seq<string> := ["MD", "NO", "LR", "RF", "DB", "SG", "BH", "HS", "MT", "DS"]
  const SymbolRow11: seq<string> := ["RG", "CN", "NH", "FL", "MC", "LV", "TS", "OG"]

  lemma SymbolCount()
    ensures |ElementSymbols| == 118
  {
  }

  /** `char::to_ascii_uppercase`. */
  function UpperAscii(c: char): char
  {
    if 'a' <= c <= 'z' then (c as int - 32) as char else c
  }

  /** `str::eq_ignore_ascii_case`. */
  predicate EqIgnoreAsciiCase(a: string, b: string)
  {
    |a| == |b| && forall i :: 0 <= i < |a| ==> UpperAscii(a[i]) == UpperAscii(b[i])
  }

  /** The arms of `from_symbol` from the one for atomic number `i + 1` on:
      the first arm whose symbol matches, ignoring ASCII case, wins. */
  function SymbolArms(s: string, table: seq<string>, i: nat): (r: Option<Element>)
    requires i <= 118 && |table| == 118
    ensures r.Some? ==> i < r.value && EqIgnoreAsciiCase(s, table[r.value - 1])
    ensures r.Some? ==> forall j :: i <= j < r.value - 1 ==> !EqIgnoreAsciiCase(s, table[j])
    ensures r.None? ==> forall j :: i <= j < 118 ==> !EqIgnoreAsciiCase(s, table[j])
    decreases 118 - i
  {
    if i == 118 then None
    else if EqIgnoreAsciiCase(s, table[i]) then Some(i + 1)
    else SymbolArms(s, table, i + 1)
  }

  /** `Element::from_symbol`: the element whose symbol the text spells in
      any mix of ASCII case, if there is one. */
  function FromSymbol(symbol: string): (r: Option<Element>)
    ensures r.Some? ==> EqIgnoreAsciiCase(symbol, ElementSymbols[r.value - 1])
    ensures r.None? ==> forall j :: 0 <= j < 118 ==> !EqIgnoreAsciiCase(symbol, ElementSymbols[j])
  {
    SymbolCount();
    SymbolArms(symbol, ElementSymbols, 0)
  }

  /** `Element::to_symbol` as written: `ELEMENT_SYMBOLS[self as usize]`
      indexes with the atomic number itself, one past the element's own
      entry; `None` stands for the out-of-bounds panic on `Og`. */
  function ToSymbolAsWritten(e: Element): (r: Option<string>)
    ensures r.None? <==> e == Og
  {
    if e < 118 then Some(ElementSymbols[e]) else None
  }

  /** `to_symbol` as intended: the element's own entry, one before the
      atomic number. */
  function ToSymbol(e: Element): (r: string)
    ensures FromSymbol(r) == Some(e)
  {
    SymbolRoundTrip(e);
    ElementSymbols[e - 1]
  }

  /** `Element::from_atom_name`: only the first character counts, and only
      the upper-case letters H, C, N, O and S name an element. */
  function FromAtomName(atomName: string): (r: Option<Element>)
    ensures r.Some? <==> |atomName| > 0 && atomName[0] in "HCNOS"
    ensures r.Some? ==> r.value in {H, C, N, O, S}
  {
    if |atomName| == 0 then None
    else match atomName[0]
      case 'H' => Some(H)
      case 'C' => Some(C)
      case 'N' => Some(N)
      case 'O' => Some(O)
      case 'S' => Some(S)
      case _ => None
  }

  /** The element `from_atom_name` picks is the one whose symbol is the name's first character. */
  lemma FromAtomNameSymbol(atomName: string)
    requires FromAtomName(atomName).Some?
    ensures ElementSymbols[FromAtomName(atomName).value - 1] == atomName[..1]
  {
    AtomNameSymbols();
    assert atomName[..1] == [atomName[0]];
  }

  lemma AtomNameSymbols()
    ensures ElementSymbols[H - 1] == "H" && ElementSymbols[C - 1] == "C"
    ensures ElementSymbols[N - 1] == "N" && ElementSymbols[O - 1] == "O"
    ensures ElementSymbols[S - 1] == "S"
  {
    assert ElementSymbols[15] == SymbolRow1[5];
  }

  // ---------------------------------------------------------------------
  // The symbols are pairwise different, even ignoring case

  /** The atomic number a one- or two-letter symbol names, looked up letter
      by letter; zero for anything else. */
  ghost function SymbolNumber(s: string): nat
  {
    if |s| == 1 then
      match UpperAscii(s[0])
      case 'H' => 1
      case 'B' => 5
      case 'C' => 6
      case 'N' => 7
      case 'O' => 8
      case 'F' => 9
      case 'P' => 15
      case 'S' => 16
      case 'K' => 19
      case 'V' => 23
      case 'Y' => 39
      case 'I' => 53
      case 'W' => 74
      case 'U' => 92
      case _ => 0
    else if |s| == 2 then
      match UpperAscii(s[0])
      case 'H' =>
        (match UpperAscii(s[1])
         case 'E' => 2
         case 'O' => 67
         case 'F' => 72
         case 'G' => 80
         case 'S' => 108
         case _ => 0)
      case 'L' =>
        (match UpperAscii(s[1])
         case 'I' => 3
         case 'A' => 57
         case 'U' => 71
         case 'R' => 103
         case 'V' => 116
         case _ => 0)
      case 'B' =>
        (match UpperAscii(s[1])
         case 'E' => 4
         case 'R' => 35
         case 'A' => 56
         case 'I' => 83
         case 'K' => 97
         case 'H' => 107
         case _ => 0)
      case 'N' =>
        (match UpperAscii(s[1])
         case 'E' => 10
         case 'A' => 11
         case 'I' => 28
         case 'B' => 41
         case 'D' => 60
         case 'P' => 93
         case 'O' => 102
         case 'H' => 113
         case _ => 0)
      case 'M' =>
        (match UpperAscii(s[1])
         case 'G' => 12
         case 'N' => 25
         case 'O' => 42
         case 'D' => 101
         case 'T' => 109
         case 'C' => 115
         case _ => 0)
      case 'A' =>
        (match UpperAscii(s[1])
         case 'L' => 13
         case 'R' => 18
         case 'S' => 33
         case 'G' => 47
         case 'U' => 79
         case 'T' => 85
         case 'C' => 89
         case 'M' => 95
         case _ => 0)
      case 'S' =>
        (match UpperAscii(s[1])
         case 'I' => 14
         case 'C' => 21
         case 'E' => 34
         case 'R' => 38
         case 'N' => 50
         case 'B' => 51
         case 'M' => 62
         case 'G' => 106
         case _ => 0)
      case 'C' =>
        (match UpperAscii(s[1])
         case 'L' => 17
         case 'A' => 20
         case 'R' => 24
         case 'O' => 27
         case 'U' => 29
         case 'D' => 48
         case 'S' => 55
         case 'E' => 58
         case 'M' => 96
         case 'F' => 98
         case 'N' => 112
         case _ => 0)
      case 'T' =>
        (match UpperAscii(s[1])
         case 'I' => 22
         case 'C' => 43
         case 'E' => 52
         case 'B' => 65
         case 'M' => 69
         case 'A' => 73
         case 'L' => 81
         case 'H' => 90
         case 'S' => 117
         case _ => 0)
      case 'F' =>
        (match UpperAscii(s[1])
         case 'E' => 26
         case 'R' => 87
         case 'M' => 100
         case 'L' => 114
         case _ => 0)
      case 'Z' =>
        (match UpperAscii(s[1])
         case 'N' => 30
         case 'R' => 40
         case _ => 0)
      case 'G' =>
        (match UpperAscii(s[1])
         case 'A' => 31
         case 'E' => 32
         case 'D' => 64
         case _ => 0)
      case 'K' =>
        (match UpperAscii(s[1])
         case 'R' => 36
         case _ => 0)
      case 'R' =>
        (match UpperAscii(s[1])
         case 'B' => 37
         case 'U' => 44
         case 'H' => 45
         case 'E' => 75
         case 'N' => 86
         case 'A' => 88
         case 'F' => 104
         case 'G' => 111
         case _ => 0)
      case 'P' =>
        (match UpperAscii(s[1])
         case 'D' => 46
         case 'R' => 59
         case 'M' => 61
         case 'T' => 78
         case 'B' => 82
         case 'O' => 84
         case 'A' => 91
         case 'U' => 94
         case _ => 0)
      case 'I' =>
        (match UpperAscii(s[1])
         case 'N' => 49
         case 'R' => 77
         case _ => 0)
      case 'X' =>
        (match UpperAscii(s[1])
         case 'E' => 54
         case _ => 0)
      case 'E' =>
        (match UpperAscii(s[1])
         case 'U' => 63
         case 'R' => 68
         case 'S' => 99
         case _ => 0)
      case 'D' =>
        (match UpperAscii(s[1])
         case 'Y' => 66
         case 'B' => 105
         case 'S' => 110
         case _ => 0)
      case 'Y' =>
        (match UpperAscii(s[1])
         case 'B' => 70
         case _ => 0)
      case 'O' =>
        (match UpperAscii(s[1])
         case 'S' => 76
         case 'G' => 118
         case _ => 0)
      case _ => 0
    else 0
  }

  lemma NumberIgnoresCase(a: string, b: string)
    requires EqIgnoreAsciiCase(a, b)
    ensures SymbolNumber(a) == SymbolNumber(b)
  {
    if |a| >= 1 { assert UpperAscii(a[0]) == UpperAscii(b[0]); }
    if |a| == 2 { assert UpperAscii(a[1]) == UpperAscii(b[1]); }
  }

  lemma SymbolNumbersRow0(k: nat)
    requires 0 <= k < 10
    ensures SymbolNumber(ElementSymbols[k]) == k + 1
  {
    assert ElementSymbols[k] == SymbolRow0[k - 0];
    RowNumbers0(k - 0);
  }

  lemma RowNumbers0(j: nat)
    requires j < 10
    ensures SymbolNumber(SymbolRow0[j]) == 0 + j + 1
  {
    match j
    case 0 =>
    case 1 =>
    case 2 =>
    case 3 =>
    case 4 =>
    case 5 =>
    case 6 =>
    case 7 =>
    case 8 =>
    case 9 =>
  }

  lemma SymbolNumbersRow1(k: nat)
    requires 10 <= k < 20
    ensures SymbolNumber(ElementSymbols[k]) == k + 1
  {
    assert ElementSymbols[k] == SymbolRow1[k - 10];
    RowNumbers1(k - 10);
  }

  lemma RowNumbers1(j: nat)
    requires j < 10
    ensures SymbolNumber(SymbolRow1[j]) == 10 + j + 1
  {
    match j
    case 0 =>
    case 1 =>
    case 2 =>
    case 3 =>
    case 4 =>
    case 5 =>
    case 6 =>
    case 7 =>
    case 8 =>
    case 9 =>
  }

  lemma SymbolNumbersRow2(k: nat)
    requires 20 <= k < 30
    ensures SymbolNumber(ElementSymbols[k]) == k + 1
  {
    assert ElementSymbols[k] == SymbolRow2[k - 20];
    RowNumbers2(k - 20);
  }

  lemma RowNumbers2(j: nat)
    requires j < 10
    ensures SymbolNumber(SymbolRow2[j]) == 20 + j + 1
  {
    match j
    case 0 =>
    case 1 =>
    case 2 =>
    case 3 =>
    case 4 =>
    case 5 =>
    case 6 =>
    case 7 =>
    case 8 =>
    case 9 =>
  }

  lemma SymbolNumbersRow3(k: nat)
    requires 30 <= k < 40
    ensures SymbolNumber(ElementSymbols[k]) == k + 1
  {
    assert ElementSymbols[k] == SymbolRow3[k - 30];
    RowNumbers3(k - 30);
  }

  lemma RowNumbers3(j: nat)
    requires j < 10
    ensures SymbolNumber(SymbolRow3[j]) == 30 + j + 1
  {
    match j
    case 0 =>
    case 1 =>
    case 2 =>
    case 3 =>
    case 4 =>
    case 5 =>
    case 6 =>
    case 7 =>
    case 8 =>
    case 9 =>
  }

  lemma SymbolNumbersRow4(k: nat)
    requires 40 <= k < 50
    ensures SymbolNumber(ElementSymbols[k]) == k + 1
  {
    assert ElementSymbols[k] == SymbolRow4[k - 40];
    RowNumbers4(k - 40);
  }

  lemma RowNumbers4(j: nat)
    requires j < 10
    ensures SymbolNumber(SymbolRow4[j]) == 40 + j + 1
  {
    match j
    case 0 =>
    case 1 =>
    case 2 =>
    case 3 =>
    case 4 =>
    case 5 =>
    case 6 =>
    case 7 =>
    case 8 =>
    case 9 =>
  }

  lemma SymbolNumbersRow5(k: nat)
    requires 50 <= k < 60
    ensures SymbolNumber(ElementSymbols[k]) == k + 1
  {
    assert ElementSymbols[k] == SymbolRow5[k - 50];
    RowNumbers5(k - 50);
  }

  lemma RowNumbers5(j: nat)
    requires j < 10
    ensures SymbolNumber(SymbolRow5[j]) == 50 + j + 1
  {
    match j
    case 0 =>
    case 1 =>
    case 2 =>
    case 3 =>
    case 4 =>
    case 5 =>
    case 6 =>
    case 7 =>
    case 8 =>
    case 9 =>
  }

  lemma SymbolNumbersRow6(k: nat)
    requires 60 <= k < 70
    ensures SymbolNumber(ElementSymbols[k]) == k + 1
  {
    assert ElementSymbols[k] == SymbolRow6[k - 60];
    RowNumbers6(k - 60);
  }

  lemma RowNumbers6(j: nat)
    requires j < 10
    ensures SymbolNumber(SymbolRow6[j]) == 60 + j + 1
  {
    match j
    case 0 =>
    case 1 =>
    case 2 =>
    case 3 =>
    case 4 =>
    case 5 =>
    case 6 =>
    case 7 =>
    case 8 =>
    case 9 =>
  }

  lemma SymbolNumbersRow7(k: nat)
    requires 70 <= k < 80
    ensures SymbolNumber(ElementSymbols[k]) == k + 1
  {
    assert ElementSymbols[k] == SymbolRow7[k - 70];
    RowNumbers7(k - 70);
  }

  lemma RowNumbers7(j: nat)
    requires j < 10
    ensures SymbolNumber(SymbolRow7[j]) == 70 + j + 1
  {
    match j
    case 0 =>
    case 1 =>
    case 2 =>
    case 3 =>
    case 4 =>
    case 5 =>
    case 6 =>
    case 7 =>
    case 8 =>
    case 9 =>
  }

  lemma SymbolNumbersRow8(k: nat)
    requires 80 <= k < 90
    ensures SymbolNumber(ElementSymbols[k]) == k + 1
  {
    assert ElementSymbols[k] == SymbolRow8[k - 80];
    RowNumbers8(k - 80);
  }

  lemma RowNumbers8(j: nat)
    requires j < 10
    ensures SymbolNumber(SymbolRow8[j]) == 80 + j + 1
  {
    match j
    case 0 =>
    case 1 =>
    case 2 =>
    case 3 =>
    case 4 =>
    case 5 =>
    case 6 =>
    case 7 =>
    case 8 =>
    case 9 =>
  }

  lemma SymbolNumbersRow9(k: nat)
    requires 90 <= k < 100
    ensures SymbolNumber(ElementSymbols[k]) == k + 1
  {
    assert ElementSymbols[k] == SymbolRow9[k - 90];
    RowNumbers9(k - 90);
  }

  lemma RowNumbers9(j: nat)
    requires j < 10
    ensures SymbolNumber(SymbolRow9[j]) == 90 + j + 1
  {
    match j
    case 0 =>
    case 1 =>
    case 2 =>
    case 3 =>
    case 4 =>
    case 5 =>
    case 6 =>
    case 7 =>
    case 8 =>
    case 9 =>
  }

  lemma SymbolNumbersRow10(k: nat)
    requires 100 <= k < 110
    ensures SymbolNumber(ElementSymbols[k]) == k + 1
  {
    assert ElementSymbols[k] == SymbolRow10[k - 100];
    RowNumbers10(k - 100);
  }

  lemma RowNumbers10(j: nat)
    requires j < 10
    ensures SymbolNumber(SymbolRow10[j]) == 100 + j + 1
  {
    match j
    case 0 =>
    case 1 =>
    case 2 =>
    case 3 =>
    case 4 =>
    case 5 =>
    case 6 =>
    case 7 =>
    case 8 =>
    case 9 =>
  }

  lemma SymbolNumbersRow11(k: nat)
    requires 110 <= k < 118
    ensures SymbolNumber(ElementSymbols[k]) == k + 1
  {
    assert ElementSymbols[k] == SymbolRow11[k - 110];
    RowNumbers11(k - 110);
  }

  lemma RowNumbers11(j: nat)
    requires j < 8
    ensures SymbolNumber(SymbolRow11[j]) == 110 + j + 1
  {
    match j
    case 0 =>
    case 1 =>
    case 2 =>
    case 3 =>
    case 4 =>
    case 5 =>
    case 6 =>
    case 7 =>
  }

  lemma SymbolNumberOf(k: nat)
    requires k < 118
    ensures SymbolNumber(ElementSymbols[k]) == k + 1
  {
    match k / 10
    case 0 => SymbolNumbersRow0(k);
    case 1 => SymbolNumbersRow1(k);
    case 2 => SymbolNumbersRow2(k);
    case 3 => SymbolNumbersRow3(k);
    case 4 => SymbolNumbersRow4(k);
    case 5 => SymbolNumbersRow5(k);
    case 6 => SymbolNumbersRow6(k);
    case 7 => SymbolNumbersRow7(k);
    case 8 => SymbolNumbersRow8(k);
    case 9 => SymbolNumbersRow9(k);
    case 10 => SymbolNumbersRow10(k);
    case _ => SymbolNumbersRow11(k);
  }

  /** No two entries of the table match each other, whatever the case. */
  lemma SymbolsDistinct(i: nat, j: nat)
    requires i < 118 && j < 118 && i != j
    ensures !EqIgnoreAsciiCase(ElementSymbols[i], ElementSymbols[j])
  {
    SymbolNumberOf(i);
    SymbolNumberOf(j);
    if EqIgnoreAsciiCase(ElementSymbols[i], ElementSymbols[j]) {
      NumberIgnoresCase(ElementSymbols[i], ElementSymbols[j]);
    }
  }

  lemma EqSymmetric(a: string, b: string)
    requires EqIgnoreAsciiCase(a, b)
    ensures EqIgnoreAsciiCase(b, a)
  {
  }

  lemma EqTransitive(a: string, b: string, c: string)
    requires EqIgnoreAsciiCase(a, b) && EqIgnoreAsciiCase(b, c)
    ensures EqIgnoreAsciiCase(a, c)
  {
  }

  /** The arms find the first entry, from `i` on, that the text matches. */
  lemma {:induction false} ArmsFirstMatch(s: string, table: seq<string>, i: nat, k: nat)
    requires i <= k < 118 && |table| == 118
    requires EqIgnoreAsciiCase(s, table[k])
    requires forall j :: i <= j < k ==> !EqIgnoreAsciiCase(s, table[j])
    ensures SymbolArms(s, table, i) == Some(k + 1)
    decreases k - i
  {
    if i < k {
      ArmsFirstMatch(s, table, i + 1, k);
    }
  }

  /** Text matching entry `k` matches no entry before it, the symbols being distinct. */
  lemma EarlierSymbolsDiffer(s: string, k: nat)
    requires k < 118
    requires EqIgnoreAsciiCase(s, ElementSymbols[k])
    ensures forall j :: 0 <= j < k ==> !EqIgnoreAsciiCase(s, ElementSymbols[j])
  {
    forall j | 0 <= j < k
      ensures !EqIgnoreAsciiCase(s, ElementSymbols[j])
    {
      if EqIgnoreAsciiCase(s, ElementSymbols[j]) {
        EqSymmetric(s, ElementSymbols[j]);
        EqTransitive(ElementSymbols[j], s, ElementSymbols[k]);
        SymbolsDistinct(j, k);
      }
    }
  }

  lemma ArmsFind(s: string, k: nat)
    requires k < 118
    requires EqIgnoreAsciiCase(s, ElementSymbols[k])
    ensures FromSymbol(s) == Some(k + 1)
  {
    SymbolCount();
    EarlierSymbolsDiffer(s, k);
    ArmsFirstMatch(s, ElementSymbols, 0, k);
  }


  /** Every table entry reads back as its own element. */
  lemma SymbolRoundTrip(e: Element)
    ensures FromSymbol(ElementSymbols[e - 1]) == Some(e)
  {
    ArmsFind(ElementSymbols[e - 1], e - 1);
  }

  // ---------------------------------------------------------------------
  // Properties of the conversions

  /** `from_symbol` finds an element exactly when the text is that
      element's symbol up to ASCII case. */
  lemma FromSymbolIff(s: string, e: Element)
    ensures FromSymbol(s) == Some(e) <==> EqIgnoreAsciiCase(s, ToSymbol(e))
  {
    if EqIgnoreAsciiCase(s, ToSymbol(e)) {
      ArmsFind(s, e - 1);
    }
  }

  /** Changing the case of the letters never changes the element. */
  lemma FromSymbolIgnoresCase(a: string, b: string)
    requires EqIgnoreAsciiCase(a, b)
    ensures FromSymbol(a) == FromSymbol(b)
  {
    EqSymmetric(a, b);
    var ra, rb := FromSymbol(a), FromSymbol(b);
    if ra.Some? {
      EqTransitive(b, a, ElementSymbols[ra.value - 1]);
      ArmsFind(b, ra.value - 1);
    }
    if rb.Some? {
      EqTransitive(a, b, ElementSymbols[rb.value - 1]);
      ArmsFind(a, rb.value - 1);
    }
  }

  /** As written, `to_symbol` answers with the next element's symbol. */
  lemma ToSymbolAsWrittenIsNext(e: Element)
    requires e < Og
    ensures ToSymbolAsWritten(e) == Some(ToSymbol(e + 1))
    ensures FromSymbol(ToSymbolAsWritten(e).value) == Some(e + 1)
  {
  }

  /** The discrepancy on hydrogen and oganesson. */
  lemma ToSymbolOffByOne()
    ensures ToSymbolAsWritten(H) == Some("HE")
    ensures FromSymbol(ToSymbolAsWritten(H).value) == Some(He)
    ensures ToSymbolAsWritten(Og) == None
  {
    ToSymbolAsWrittenIsNext(H);
  }

  /** An atom name's element, when it has one, is the element whose symbol
      is its first letter, so it agrees with `from_symbol` on that letter. */
  lemma FromAtomNameAgrees(atomName: string)
    requires FromAtomName(atomName).Some?
    ensures FromSymbol(atomName[..1]) == FromAtomName(atomName)
  {
    var e := FromAtomName(atomName).value;
    FromAtomNameSymbol(atomName);
    FromSymbolIff(atomName[..1], e);
  }
}
