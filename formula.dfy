/**
 * The composition parser of the interactive predictor (`main()` in
 * predictor.py): the character loop that splits a formula such as "Li21Si5"
 * into element symbols and counts, the expansion of (symbol, count) pairs into
 * one symbol per site with a coordinate for each, and the prompt loop that
 * ends on the input "q".
 */
module Formula {
  import opened Text

  // ---------------------------------------------------------------------------
  // The tokenizer
  // ---------------------------------------------------------------------------

  /**
   * The four accumulators of the loop: the letter run being read, the symbols
   * emitted so far, the digit run being read and the counts emitted so far.
   */
  datatype Scanner = Scanner(element: string, elements: seq<string>, number: string, numbers: seq<nat>)

  const Start := Scanner("", [], "", [])

  /** What the loop keeps true of its accumulators. */
  predicate Wf(st: Scanner) {
    AllDigits(st.number)
  }

  /** The digit run as a count, if one is pending. */
  function Pending(number: string): (r: seq<nat>)
    requires AllDigits(number)
    ensures |r| == if number == "" then 0 else 1
  {
    if |number| > 0 then [NumeralValue(number)] else []
  }

  /** The letter run as a symbol, if one is pending. */
  function Flushed(element: string): (r: seq<string>)
    ensures |r| == if element == "" then 0 else 1
  {
    if |element| > 0 then [element] else []
  }

  /**
   * One pass of the loop body for character `c`: a letter ends a digit run
   * and extends the letter run, a digit ends a letter run and extends the
   * digit run, and any other character changes nothing.
   */
  function Step(st: Scanner, c: char): (r: Scanner)
    requires Wf(st)
    ensures Wf(r)
  {
    if IsAlpha(c) then
      Scanner(st.element + [c], st.elements, "", st.numbers + Pending(st.number))
    else if IsDigit(c) then
      Scanner("", st.elements + Flushed(st.element), st.number + [c], st.numbers)
    else
      st
  }

  /** The loop run over all of `s`, one character at a time, left to right. */
  function ScanAll(st: Scanner, s: string): (r: Scanner)
    requires Wf(st)
    ensures Wf(r)
    decreases |s|
  {
    if s == [] then st else Step(ScanAll(st, s[..|s| - 1]), s[|s| - 1])
  }

  /**
   * The symbols and counts the parser hands on: the last digit run is turned
   * into a count after the loop, the last letter run is dropped.
   */
  function Finish(st: Scanner): (seq<string>, seq<nat>)
    requires Wf(st)
  {
    (st.elements, st.numbers + Pending(st.number))
  }

  /** The (elements, numbers) lists the tokenizer builds from `formula`. */
  function Tokens(formula: string): (seq<string>, seq<nat>)
  {
    Finish(ScanAll(Start, formula))
  }

  /** The tokenizer loop of `main()`, on its four accumulators. */
  method Parse(formula: string) returns (elements: seq<string>, numbers: seq<nat>)
    ensures (elements, numbers) == Tokens(formula)
  {
    var element := "";
    elements := [];
    var number := "";
    numbers := [];
    for i := 0 to |formula|
      invariant Scanner(element, elements, number, numbers) == ScanAll(Start, formula[..i])
    {
      assert formula[..i + 1][..i] == formula[..i];
      var c := formula[i];
      if IsAlpha(c) {
        if |number| > 0 {
          numbers := numbers + [NumeralValue(number)];
          number := "";
        }
        element := element + [c];
      } else if IsDigit(c) {
        if |element| > 0 {
          elements := elements + [element];
          element := "";
        }
        number := number + [c];
      }
    }
    assert formula[..|formula|] == formula;
    ghost var st := ScanAll(Start, formula);
    assert Tokens(formula) == (st.elements, st.numbers + Pending(st.number));
    if |number| > 0 {
      numbers := numbers + [NumeralValue(number)];
    } else {
      assert numbers + Pending(number) == numbers;
    }
  }

  // ---------------------------------------------------------------------------
  // How the tokenizer reads a formula
  // ---------------------------------------------------------------------------

  /** The letters and digits of `s`, in order; everything else left out. */
  function Significant(s: string): (r: string)
    ensures forall i :: 0 <= i < |r| ==> IsAlpha(r[i]) || IsDigit(r[i])
    ensures |r| <= |s|
  {
    if s == [] then []
    else
      var c := s[|s| - 1];
      Significant(s[..|s| - 1]) + (if IsAlpha(c) || IsDigit(c) then [c] else [])
  }

  lemma {:induction false} ScanAppend(st: Scanner, a: string, b: string)
    requires Wf(st)
    ensures ScanAll(st, a + b) == ScanAll(ScanAll(st, a), b)
    decreases |b|
  {
    if b == [] {
      assert a + b == a;
    } else {
      var b' := b[..|b| - 1];
      assert (a + b)[..|a + b| - 1] == a + b';
      ScanAppend(st, a, b');
    }
  }

  /** Characters other than letters and digits are skipped without ending a run. */
  lemma {:induction false} ScanIgnoresPunctuation(st: Scanner, s: string)
    requires Wf(st)
    ensures ScanAll(st, s) == ScanAll(st, Significant(s))
    decreases |s|
  {
    if s != [] {
      var s', c := s[..|s| - 1], s[|s| - 1];
      ScanIgnoresPunctuation(st, s');
      var t := Significant(s');
      if IsAlpha(c) || IsDigit(c) {
        var u := t + [c];
        assert Significant(s) == u;
        assert u[..|u| - 1] == t && u[|u| - 1] == c;
        assert ScanAll(st, u) == Step(ScanAll(st, t), c);
      } else {
        assert Significant(s) == t;
        assert Step(ScanAll(st, s'), c) == ScanAll(st, s');
      }
    }
  }

  /** Parsing only looks at the letters and digits: "Al-2" parses like "Al2". */
  lemma TokensIgnorePunctuation(s: string)
    ensures Tokens(s) == Tokens(Significant(s))
  {
    ScanIgnoresPunctuation(Start, s);
  }

  /** A run of letters read after a digit run (or at the start). */
  lemma {:induction false} ScanWord(st: Scanner, w: string)
    requires Wf(st) && IsWord(w) && st.element == ""
    ensures ScanAll(st, w) == Scanner(w, st.elements, "", st.numbers + Pending(st.number))
    decreases |w|
  {
    var w', c := w[..|w| - 1], w[|w| - 1];
    assert IsAlpha(c);
    assert w == w' + [c];
    if w' == [] {
      assert ScanAll(st, w') == st;
    } else {
      ScanWord(st, w');
    }
  }

  /** A run of digits read after a letter run (or at the start). */
  lemma {:induction false} ScanNumeral(st: Scanner, d: string)
    requires Wf(st) && IsNumeral(d) && st.number == ""
    ensures ScanAll(st, d) == Scanner("", st.elements + Flushed(st.element), d, st.numbers)
    decreases |d|
  {
    var d', c := d[..|d| - 1], d[|d| - 1];
    assert IsDigit(c) && !IsAlpha(c);
    assert d == d' + [c];
    if d' == [] {
      assert ScanAll(st, d') == st;
    } else {
      ScanNumeral(st, d');
    }
  }

  /** A symbol and the digits written after it, as in "Li21". */
  datatype Group = Group(symbol: string, digits: string)

  predicate WfGroups(gs: seq<Group>) {
    forall i :: 0 <= i < |gs| ==> IsWord(gs[i].symbol) && IsNumeral(gs[i].digits)
  }

  /** The groups written out one after another. */
  function Spell(gs: seq<Group>): string {
    if gs == [] then "" else Spell(gs[..|gs| - 1]) + gs[|gs| - 1].symbol + gs[|gs| - 1].digits
  }

  function Symbols(gs: seq<Group>): (r: seq<string>)
    ensures |r| == |gs| && forall i :: 0 <= i < |gs| ==> r[i] == gs[i].symbol
  {
    seq(|gs|, i requires 0 <= i < |gs| => gs[i].symbol)
  }

  function Counts(gs: seq<Group>): (r: seq<nat>)
    requires WfGroups(gs)
    ensures |r| == |gs| && forall i :: 0 <= i < |gs| ==> r[i] == NumeralValue(gs[i].digits)
  {
    seq(|gs|, i requires 0 <= i < |gs| => NumeralValue(gs[i].digits))
  }

  /** Whatever leading digits a formula has go straight into the digit run. */
  lemma ScanLead(lead: string)
    requires lead == "" || IsNumeral(lead)
    ensures ScanAll(Start, lead) == Scanner("", [], lead, [])
  {
    if lead != "" {
      ScanNumeral(Start, lead);
    }
  }

  /** A symbol and its digits, read after a digit run (or at the start). */
  lemma ScanGroup(st: Scanner, g: Group)
    requires Wf(st) && st.element == ""
    requires IsWord(g.symbol) && IsNumeral(g.digits)
    ensures ScanAll(st, g.symbol + g.digits)
         == Scanner("", st.elements + [g.symbol], g.digits, st.numbers + Pending(st.number))
  {
    ScanAppend(st, g.symbol, g.digits);
    ScanWord(st, g.symbol);
    ScanNumeral(Scanner(g.symbol, st.elements, "", st.numbers + Pending(st.number)), g.digits);
  }

  lemma SymbolsSnoc(gs: seq<Group>)
    requires |gs| > 0
    ensures Symbols(gs) == Symbols(gs[..|gs| - 1]) + [gs[|gs| - 1].symbol]
  {
  }

  lemma CountsSnoc(gs: seq<Group>)
    requires WfGroups(gs) && |gs| > 0
    ensures Counts(gs) == Counts(gs[..|gs| - 1]) + [NumeralValue(gs[|gs| - 1].digits)]
  {
  }

  lemma SpellSnoc(lead: string, gs: seq<Group>)
    requires |gs| > 0
    ensures lead + Spell(gs) == (lead + Spell(gs[..|gs| - 1])) + (gs[|gs| - 1].symbol + gs[|gs| - 1].digits)
  {
    var a, w, d := Spell(gs[..|gs| - 1]), gs[|gs| - 1].symbol, gs[|gs| - 1].digits;
    assert Spell(gs) == a + w + d;
    Reassociate(lead, a, w, d);
  }

  lemma Reassociate(s: string, a: string, w: string, d: string)
    ensures s + (a + w + d) == (s + a) + (w + d)
  {
  }

  /** The scanner after leading digits and the groups `gs`. */
  function AfterGroups(lead: string, gs: seq<Group>): (st: Scanner)
    requires lead == "" || IsNumeral(lead)
    requires WfGroups(gs) && |gs| > 0
  {
    Scanner("", Symbols(gs), gs[|gs| - 1].digits, Pending(lead) + Counts(gs[..|gs| - 1]))
  }

  lemma ScanSpelledOne(lead: string, g: Group)
    requires lead == "" || IsNumeral(lead)
    requires WfGroups([g])
    ensures ScanAll(Start, lead + Spell([g])) == AfterGroups(lead, [g])
  {
    SpellSnoc(lead, [g]);
    assert lead + Spell([g]) == lead + (g.symbol + g.digits);
    ScanAppend(Start, lead, g.symbol + g.digits);
    ScanLead(lead);
    ScanGroup(Scanner("", [], lead, []), g);
    assert Symbols([g]) == [g.symbol];
    assert [g][..0] == [];
  }

  lemma AfterGroupsSnoc(lead: string, gs: seq<Group>)
    requires lead == "" || IsNumeral(lead)
    requires WfGroups(gs) && |gs| > 1
    ensures WfGroups(gs[..|gs| - 1])
    ensures var st := AfterGroups(lead, gs[..|gs| - 1]);
            var g := gs[|gs| - 1];
            AfterGroups(lead, gs) == Scanner("", st.elements + [g.symbol], g.digits, st.numbers + Pending(st.number))
  {
    var n := |gs|;
    var gs' := gs[..n - 1];
    assert WfGroups(gs');
    SymbolsSnoc(gs);
    CountsSnoc(gs');
    assert gs'[..n - 2] == gs[..n - 2];
  }

  lemma ScanSpelledStep(lead: string, gs: seq<Group>)
    requires lead == "" || IsNumeral(lead)
    requires WfGroups(gs) && |gs| > 1
    requires ScanAll(Start, lead + Spell(gs[..|gs| - 1])) == AfterGroups(lead, gs[..|gs| - 1])
    ensures ScanAll(Start, lead + Spell(gs)) == AfterGroups(lead, gs)
  {
    var n := |gs|;
    var gs', g := gs[..n - 1], gs[n - 1];
    AfterGroupsSnoc(lead, gs);
    SpellSnoc(lead, gs);
    ScanAppend(Start, lead + Spell(gs'), g.symbol + g.digits);
    ScanGroup(AfterGroups(lead, gs'), g);
  }

  lemma {:induction false} ScanSpelled(lead: string, gs: seq<Group>)
    requires lead == "" || IsNumeral(lead)
    requires WfGroups(gs) && |gs| > 0
    ensures ScanAll(Start, lead + Spell(gs)) == AfterGroups(lead, gs)
    decreases |gs|
  {
    if |gs| == 1 {
      assert gs == [gs[0]];
      ScanSpelledOne(lead, gs[0]);
    } else {
      ScanSpelled(lead, gs[..|gs| - 1]);
      ScanSpelledStep(lead, gs);
    }
  }

  /** `TokensOfSpelling` when there are no groups: at most leading digits and a symbol. */
  lemma TokensWithoutGroups(lead: string, trail: string)
    requires lead == "" || IsNumeral(lead)
    requires trail == "" || IsWord(trail)
    ensures Tokens(lead + trail) == ([], Pending(lead))
  {
    ScanAppend(Start, lead, trail);
    ScanLead(lead);
    var st := Scanner("", [], lead, []);
    assert [] + Pending(lead) == Pending(lead);
    if trail != "" {
      ScanWord(st, trail);
      assert Pending(lead) + Pending("") == Pending(lead);
    } else {
      assert lead + trail == lead;
    }
  }

  /** Ending right after a group: its digits give the last count. */
  lemma FinishAfterGroups(lead: string, gs: seq<Group>)
    requires lead == "" || IsNumeral(lead)
    requires WfGroups(gs) && |gs| > 0
    ensures Finish(AfterGroups(lead, gs)) == (Symbols(gs), Pending(lead) + Counts(gs))
  {
    var n := |gs|;
    CountsSnoc(gs);
    var p, c, v := Pending(lead), Counts(gs[..n - 1]), NumeralValue(gs[n - 1].digits);
    assert (p + c) + [v] == p + (c + [v]);
  }

  /** A trailing symbol after a digit run changes nothing the parser returns. */
  lemma TokensIgnoreTrail(x: string, trail: string)
    requires trail == "" || IsWord(trail)
    requires ScanAll(Start, x).element == ""
    ensures Tokens(x + trail) == Finish(ScanAll(Start, x))
  {
    ScanAppend(Start, x, trail);
    var st := ScanAll(Start, x);
    if trail != "" {
      ScanWord(st, trail);
      var numbers := st.numbers + Pending(st.number);
      assert numbers + Pending("") == numbers;
    } else {
      assert x + trail == x;
    }
  }

  /** `TokensOfSpelling` when there is at least one group. */
  lemma TokensWithGroups(lead: string, gs: seq<Group>, trail: string)
    requires lead == "" || IsNumeral(lead)
    requires WfGroups(gs) && |gs| > 0
    requires trail == "" || IsWord(trail)
    ensures Tokens(lead + Spell(gs) + trail) == (Symbols(gs), Pending(lead) + Counts(gs))
  {
    ScanSpelled(lead, gs);
    TokensIgnoreTrail(lead + Spell(gs), trail);
    FinishAfterGroups(lead, gs);
  }

  /**
   * What the parser returns for a formula of letters and digits: optional
   * leading digits, then symbol/digit groups, then an optional symbol with no
   * count. Leading digits become a count with no symbol; a trailing symbol
   * is dropped; every other count is the value of the digits that follow its
   * symbol.
   */
  lemma TokensOfSpelling(lead: string, gs: seq<Group>, trail: string)
    requires lead == "" || IsNumeral(lead)
    requires WfGroups(gs)
    requires trail == "" || IsWord(trail)
    ensures Tokens(lead + Spell(gs) + trail) == (Symbols(gs), Pending(lead) + Counts(gs))
  {
    if gs == [] {
      assert lead + Spell(gs) + trail == lead + trail;
      TokensWithoutGroups(lead, trail);
      assert Symbols(gs) == [] && Pending(lead) + Counts(gs) == Pending(lead);
    } else {
      TokensWithGroups(lead, gs, trail);
    }
  }

  /** Leading digits, symbol/digit groups and a trailing symbol. */
  type Cut = (string, seq<Group>, string)

  /** `r` cuts `s` into runs: it spells `s`, and has leading digits exactly when `s` starts with one. */
  predicate Cuts(s: string, r: Cut) {
    && (r.0 == "" || IsNumeral(r.0))
    && WfGroups(r.1)
    && (r.2 == "" || IsWord(r.2))
    && s == r.0 + Spell(r.1) + r.2
    && (r.0 != "" <==> |s| > 0 && IsDigit(s[0]))
  }

  /** The cut of `s + [c]`, from the cut of `s`. */
  function Extend(r: Cut, c: char): Cut {
    var (lead, gs, trail) := r;
    if IsAlpha(c) then (lead, gs, trail + [c])
    else if trail != "" then (lead, gs + [Group(trail, [c])], "")
    else if gs != [] then
      var g := gs[|gs| - 1];
      (lead, gs[..|gs| - 1] + [Group(g.symbol, g.digits + [c])], "")
    else (lead + [c], [], "")
  }

  lemma ExtendLetter(s: string, r: Cut, c: char)
    requires Cuts(s, r) && IsAlpha(c)
    ensures Cuts(s + [c], Extend(r, c))
  {
    var (lead, gs, trail) := r;
    assert s + [c] == lead + Spell(gs) + (trail + [c]);
    if s != [] {
      assert (s + [c])[0] == s[0];
    }
  }

  lemma ExtendAfterSymbol(s: string, r: Cut, c: char)
    requires Cuts(s, r) && IsDigit(c) && r.2 != ""
    ensures Cuts(s + [c], Extend(r, c))
  {
    var (lead, gs, trail) := r;
    var gs2 := gs + [Group(trail, [c])];
    assert gs2[..|gs2| - 1] == gs;
    assert Spell(gs2) == Spell(gs) + trail + [c];
    assert s + [c] == lead + Spell(gs2) + "";
    assert (s + [c])[0] == s[0];
  }

  lemma ExtendAfterDigits(s: string, r: Cut, c: char)
    requires Cuts(s, r) && IsDigit(c) && r.2 == "" && r.1 != []
    ensures Cuts(s + [c], Extend(r, c))
  {
    var (lead, gs, trail) := r;
    var g := gs[|gs| - 1];
    var init := gs[..|gs| - 1];
    var gs2 := init + [Group(g.symbol, g.digits + [c])];
    assert gs2[..|gs2| - 1] == init;
    assert Spell(gs) == Spell(init) + g.symbol + g.digits;
    assert Spell(gs2) == Spell(init) + g.symbol + (g.digits + [c]);
    assert s + [c] == lead + Spell(gs2) + "";
    assert |s| > 0;
    assert (s + [c])[0] == s[0];
  }

  lemma ExtendLead(s: string, r: Cut, c: char)
    requires Cuts(s, r) && IsDigit(c) && r.2 == "" && r.1 == []
    ensures Cuts(s + [c], Extend(r, c))
  {
    var (lead, gs, trail) := r;
    assert s == lead;
    assert s + [c] == (lead + [c]) + Spell([]) + "";
  }

  lemma ExtendCuts(s: string, r: Cut, c: char)
    requires Cuts(s, r) && (IsAlpha(c) || IsDigit(c))
    ensures Cuts(s + [c], Extend(r, c))
  {
    if IsAlpha(c) {
      ExtendLetter(s, r, c);
    } else if r.2 != "" {
      ExtendAfterSymbol(s, r, c);
    } else if r.1 != [] {
      ExtendAfterDigits(s, r, c);
    } else {
      ExtendLead(s, r, c);
    }
  }

  /**
   * Cuts a string of letters and digits into leading digits, symbol/digit
   * groups and a trailing symbol, with every run maximal.
   */
  function Decompose(s: string): (r: Cut)
    requires forall i :: 0 <= i < |s| ==> IsAlpha(s[i]) || IsDigit(s[i])
    ensures Cuts(s, r)
  {
    if s == [] then ("", [], "")
    else
      var s', c := s[..|s| - 1], s[|s| - 1];
      assert s == s' + [c];
      var r' := Decompose(s');
      ExtendCuts(s', r', c);
      Extend(r', c)
  }

  /**
   * The tokenizer, characterised: drop everything but letters and digits,
   * cut what remains into maximal runs; the symbols are the letter runs that
   * a digit run follows, and the counts are the values of all digit runs,
   * in order.
   */
  lemma TokensCharacterized(s: string)
    ensures var (lead, gs, trail) := Decompose(Significant(s));
            Tokens(s) == (Symbols(gs), Pending(lead) + Counts(gs))
  {
    TokensIgnorePunctuation(s);
    var (lead, gs, trail) := Decompose(Significant(s));
    TokensOfSpelling(lead, gs, trail);
  }

  /** Every symbol the parser returns is a non-empty run of letters. */
  lemma SymbolsAreWords(s: string)
    ensures forall i :: 0 <= i < |Tokens(s).0| ==> IsWord(Tokens(s).0[i])
  {
    TokensCharacterized(s);
  }

  /** The formula's first letter or digit is a digit. */
  predicate StartsWithDigit(s: string) {
    var sig := Significant(s);
    |sig| > 0 && IsDigit(sig[0])
  }

  /**
   * There is one count more than symbols exactly when the first letter or
   * digit is a digit, and otherwise as many: so the mismatch message fires
   * only for leading digits and never for a missing trailing count.
   */
  lemma CountsMinusSymbols(s: string)
    ensures |Tokens(s).1| == |Tokens(s).0| + (if StartsWithDigit(s) then 1 else 0)
  {
    TokensCharacterized(s);
  }

  /** The counts written in decimal after their symbols. */
  function Written(pairs: seq<(string, nat)>): string {
    if pairs == [] then ""
    else
      var p := pairs[|pairs| - 1];
      Written(pairs[..|pairs| - 1]) + p.0 + NatToString(p.1)
  }

  function AsGroups(pairs: seq<(string, nat)>): (gs: seq<Group>)
    ensures |gs| == |pairs|
    ensures forall i :: 0 <= i < |pairs| ==> gs[i] == Group(pairs[i].0, NatToString(pairs[i].1))
  {
    seq(|pairs|, i requires 0 <= i < |pairs| => Group(pairs[i].0, NatToString(pairs[i].1)))
  }

  lemma {:induction false} WrittenIsSpelled(pairs: seq<(string, nat)>)
    ensures Written(pairs) == Spell(AsGroups(pairs))
    decreases |pairs|
  {
    if pairs != [] {
      var pairs' := pairs[..|pairs| - 1];
      WrittenIsSpelled(pairs');
      assert AsGroups(pairs)[..|pairs| - 1] == AsGroups(pairs');
    }
  }

  function Names(pairs: seq<(string, nat)>): (r: seq<string>)
    ensures |r| == |pairs| && forall i :: 0 <= i < |pairs| ==> r[i] == pairs[i].0
  {
    seq(|pairs|, i requires 0 <= i < |pairs| => pairs[i].0)
  }

  function Amounts(pairs: seq<(string, nat)>): (r: seq<nat>)
    ensures |r| == |pairs| && forall i :: 0 <= i < |pairs| ==> r[i] == pairs[i].1
  {
    seq(|pairs|, i requires 0 <= i < |pairs| => pairs[i].1)
  }

  lemma GroupsOfWritten(pairs: seq<(string, nat)>)
    requires forall i :: 0 <= i < |pairs| ==> IsWord(pairs[i].0)
    ensures WfGroups(AsGroups(pairs))
    ensures Symbols(AsGroups(pairs)) == Names(pairs)
    ensures Counts(AsGroups(pairs)) == Amounts(pairs)
  {
  }

  /**
   * Round trip: symbols written with their decimal counts ("Li21Si5") parse
   * back to the same symbols and counts.
   */
  lemma RoundTrip(pairs: seq<(string, nat)>)
    requires forall i :: 0 <= i < |pairs| ==> IsWord(pairs[i].0)
    ensures Tokens(Written(pairs)) == (Names(pairs), Amounts(pairs))
  {
    var gs := AsGroups(pairs);
    GroupsOfWritten(pairs);
    WrittenIsSpelled(pairs);
    TokensOfSpelling("", gs, "");
    assert "" + Spell(gs) + "" == Spell(gs);
    assert Pending("") + Counts(gs) == Counts(gs);
  }

  /** A symbol with no count at the end is dropped without trace: "Al2Ti" reads as "Al2". */
  lemma TrailingSymbolDropped(pairs: seq<(string, nat)>, w: string)
    requires forall i :: 0 <= i < |pairs| ==> IsWord(pairs[i].0)
    requires IsWord(w)
    ensures Tokens(Written(pairs) + w) == (Names(pairs), Amounts(pairs))
  {
    var gs := AsGroups(pairs);
    GroupsOfWritten(pairs);
    WrittenIsSpelled(pairs);
    TokensOfSpelling("", gs, w);
    assert "" + Spell(gs) + w == Spell(gs) + w;
    assert Pending("") + Counts(gs) == Counts(gs);
  }

  /** Leading digits become a count with no symbol: "3Al2" gives ["Al"] and [3, 2]. */
  lemma LeadingDigitsCounted(d: string, pairs: seq<(string, nat)>)
    requires IsNumeral(d)
    requires forall i :: 0 <= i < |pairs| ==> IsWord(pairs[i].0)
    ensures Tokens(d + Written(pairs)) == (Names(pairs), [NumeralValue(d)] + Amounts(pairs))
  {
    var gs := AsGroups(pairs);
    GroupsOfWritten(pairs);
    WrittenIsSpelled(pairs);
    TokensOfSpelling(d, gs, "");
    assert d + Spell(gs) + "" == d + Spell(gs);
  }

  lemma DigitChars()
    ensures DigitChar(1) == '1' && DigitChar(2) == '2' && DigitChar(5) == '5'
  {
  }

  lemma WrittenTwo(x: string, m: nat, y: string, n: nat)
    ensures Written([(x, m), (y, n)]) == x + NatToString(m) + y + NatToString(n)
    ensures Names([(x, m), (y, n)]) == [x, y] && Amounts([(x, m), (y, n)]) == [m, n]
  {
    var ps := [(x, m), (y, n)];
    assert ps[..1] == [(x, m)];
    assert [(x, m)][..0] == [];
    assert Written([(x, m)]) == "" + x + NatToString(m);
    assert Written(ps) == Written([(x, m)]) + y + NatToString(n);
    assert "" + x + NatToString(m) + y + NatToString(n) == x + NatToString(m) + y + NatToString(n);
  }

  /** The prompt's first example: "Li21Si5". */
  lemma ExampleLi21Si5()
    ensures Tokens("Li21Si5") == (["Li", "Si"], [21, 5])
  {
    DigitChars();
    assert NatToString(21) == "21";
    assert NatToString(5) == "5";
    WrittenTwo("Li", 21, "Si", 5);
    assert "Li" + "21" + "Si" + "5" == "Li21Si5";
    RoundTrip([("Li", 21), ("Si", 5)]);
  }

  /** The prompt's second example: "Al2Ti1". */
  lemma ExampleAl2Ti1()
    ensures Tokens("Al2Ti1") == (["Al", "Ti"], [2, 1])
  {
    DigitChars();
    assert NatToString(2) == "2";
    assert NatToString(1) == "1";
    WrittenTwo("Al", 2, "Ti", 1);
    assert "Al" + "2" + "Ti" + "1" == "Al2Ti1";
    RoundTrip([("Al", 2), ("Ti", 1)]);
  }

  /** "Al2Ti" loses its Ti: one symbol, one count, and no mismatch message. */
  lemma ExampleAl2Ti()
    ensures Tokens("Al2Ti") == (["Al"], [2])
  {
    DigitChars();
    var al := [("Al", 2)];
    assert al[..0] == [];
    assert NatToString(2) == "2";
    assert Written(al) == "Al2";
    assert Names(al) == ["Al"] && Amounts(al) == [2];
    TrailingSymbolDropped(al, "Ti");
    assert "Al2" + "Ti" == "Al2Ti";
  }

  lemma {:induction false} SignificantAppend(x: string, y: string)
    ensures Significant(x + y) == Significant(x) + Significant(y)
    decreases |y|
  {
    if y == [] {
      assert x + y == x;
    } else {
      var y', c := y[..|y| - 1], y[|y| - 1];
      assert (x + y)[..|x + y| - 1] == x + y' && (x + y)[|x + y| - 1] == c;
      SignificantAppend(x, y');
    }
  }

  /** A character that is neither a letter nor a digit can be dropped from anywhere in the formula. */
  lemma PunctuationDropped(a: string, c: char, b: string)
    requires !IsAlpha(c) && !IsDigit(c)
    ensures Tokens(a + [c] + b) == Tokens(a + b)
  {
    SignificantAppend(a + [c], b);
    SignificantAppend(a, [c]);
    SignificantAppend(a, b);
    assert [c][..0] == [];
    assert Significant([c]) == [];
    assert Significant(a + [c]) == Significant(a) + [] == Significant(a);
    assert Significant(a + [c] + b) == Significant(a + b);
    TokensIgnorePunctuation(a + [c] + b);
    TokensIgnorePunctuation(a + b);
  }

  /** "Al-2" parses like "Al2". */
  lemma ExampleAlDash2()
    ensures Tokens("Al-2") == Tokens("Al2")
  {
    PunctuationDropped("Al", '-', "2");
    assert "Al" + ['-'] + "2" == "Al-2" && "Al" + "2" == "Al2";
  }

  // ---------------------------------------------------------------------------
  // Expansion into sites
  // ---------------------------------------------------------------------------

  /** Python's `zip`: pairs up the two lists and stops at the shorter one. */
  function Zip(elements: seq<string>, numbers: seq<nat>): (r: seq<(string, nat)>)
    ensures |r| == if |elements| < |numbers| then |elements| else |numbers|
    ensures forall i :: 0 <= i < |r| ==> r[i] == (elements[i], numbers[i])
  {
    var n := if |elements| < |numbers| then |elements| else |numbers|;
    seq(n, i requires 0 <= i < n => (elements[i], numbers[i]))
  }

  /** `[symbol for i in range(count)]` */
  function Repeat(symbol: string, count: nat): (r: seq<string>)
    ensures |r| == count && forall i :: 0 <= i < count ==> r[i] == symbol
  {
    seq(count, _ => symbol)
  }

  /** The site list: each pair contributes its symbol `count` times, in order. */
  function Expansion(pairs: seq<(string, nat)>): seq<string> {
    if pairs == [] then []
    else
      var p := pairs[|pairs| - 1];
      Expansion(pairs[..|pairs| - 1]) + Repeat(p.0, p.1)
  }

  /** The loop that grows `el_list` with `extend`, one pair of the zip at a time. */
  method Expand(elements: seq<string>, numbers: seq<nat>) returns (elList: seq<string>)
    ensures elList == Expansion(Zip(elements, numbers))
  {
    var pairs := Zip(elements, numbers);
    elList := [];
    for i := 0 to |pairs|
      invariant elList == Expansion(pairs[..i])
    {
      assert pairs[..i + 1][..i] == pairs[..i];
      var pair := pairs[i];
      elList := elList + Repeat(pair.0, pair.1);
    }
    assert pairs[..|pairs|] == pairs;
  }

  /** The sum of the counts. */
  function TotalCount(pairs: seq<(string, nat)>): nat {
    if pairs == [] then 0 else TotalCount(pairs[..|pairs| - 1]) + pairs[|pairs| - 1].1
  }

  /** The sum of the counts of the pairs whose symbol is `x`. */
  function CountOf(pairs: seq<(string, nat)>, x: string): nat {
    if pairs == [] then 0
    else
      var p := pairs[|pairs| - 1];
      CountOf(pairs[..|pairs| - 1], x) + (if p.0 == x then p.1 else 0)
  }

  /** There is one site per counted atom. */
  lemma {:induction false} ExpansionLength(pairs: seq<(string, nat)>)
    ensures |Expansion(pairs)| == TotalCount(pairs)
    decreases |pairs|
  {
    if pairs != [] {
      ExpansionLength(pairs[..|pairs| - 1]);
    }
  }

  /** Each symbol occurs on as many sites as the counts given for it add up to. */
  lemma {:induction false} ExpansionOccurrences(pairs: seq<(string, nat)>, x: string)
    ensures multiset(Expansion(pairs))[x] == CountOf(pairs, x)
    decreases |pairs|
  {
    if pairs != [] {
      var p := pairs[|pairs| - 1];
      ExpansionOccurrences(pairs[..|pairs| - 1], x);
      RepeatOccurrences(p.0, p.1, x);
    }
  }

  lemma {:induction false} RepeatOccurrences(symbol: string, count: nat, x: string)
    ensures multiset(Repeat(symbol, count))[x] == if symbol == x then count else 0
    decreases count
  {
    if count > 0 {
      assert Repeat(symbol, count) == Repeat(symbol, count - 1) + [symbol];
      RepeatOccurrences(symbol, count - 1, x);
    }
  }

  /**
   * The sites of pair `k` form one block, right after the sites of the pairs
   * before it: symbols appear contiguously and in input order.
   */
  lemma {:induction false} ExpansionBlock(pairs: seq<(string, nat)>, k: nat)
    requires k < |pairs|
    ensures TotalCount(pairs[..k]) + pairs[k].1 <= |Expansion(pairs)|
    ensures Expansion(pairs)[TotalCount(pairs[..k])..TotalCount(pairs[..k]) + pairs[k].1]
         == Repeat(pairs[k].0, pairs[k].1)
    decreases |pairs|
  {
    var n := |pairs|;
    var pairs' := pairs[..n - 1];
    ExpansionLength(pairs');
    ExpansionLength(pairs);
    if k == n - 1 {
      assert pairs[..k] == pairs';
    } else {
      ExpansionBlock(pairs', k);
      assert pairs'[..k] == pairs[..k];
      assert pairs'[k] == pairs[k];
      var lo := TotalCount(pairs[..k]);
      var hi := lo + pairs[k].1;
      assert Expansion(pairs)[lo..hi] == Expansion(pairs')[lo..hi];
    }
  }

  /** `[[0,0,0] for i in range(n)]`: every site at the origin. */
  function Origins(n: nat): (r: seq<seq<int>>)
    ensures |r| == n && forall i :: 0 <= i < n ==> r[i] == [0, 0, 0]
  {
    seq(n, _ => [0, 0, 0])
  }

  // ---------------------------------------------------------------------------
  // The prompt loop
  // ---------------------------------------------------------------------------

  /**
   * What one pass of the prompt loop computes for a formula before the
   * structure is built: the symbols and counts, whether the mismatch message
   * is printed, the site list and the coordinates.
   */
  datatype Report = Report(elements: seq<string>, numbers: seq<nat>, warned: bool,
                           elList: seq<string>, coords: seq<seq<int>>)

  /** `report` is what the loop body computes for `formula`. */
  predicate IsReportFor(formula: string, report: Report) {
    && (report.elements, report.numbers) == Tokens(formula)
    && report.warned == (|report.elements| != |report.numbers|)
    && report.elList == Expansion(Zip(report.elements, report.numbers))
    && report.coords == Origins(|report.elList|)
  }

  /**
   * The `while True` loop of `main()` over a finite list of input lines: it
   * stops at the first line that is exactly "q" (or when the lines run out),
   * and handles every line before it, whether or not the mismatch message
   * was printed.
   */
  method Session(lines: seq<string>) returns (reports: seq<Report>)
    ensures |reports| <= |lines|
    ensures forall i :: 0 <= i < |reports| ==> lines[i] != "q"
    ensures |reports| < |lines| ==> lines[|reports|] == "q"
    ensures forall i :: 0 <= i < |reports| ==> IsReportFor(lines[i], reports[i])
  {
    reports := [];
    var i := 0;
    while i < |lines|
      invariant i <= |lines| && |reports| == i
      invariant forall j :: 0 <= j < i ==> lines[j] != "q"
      invariant forall j :: 0 <= j < i ==> IsReportFor(lines[j], reports[j])
    {
      var formula := lines[i];
      if formula == "q" {
        break;
      }
      var elements, numbers := Parse(formula);
      var warned := |elements| != |numbers|;
      var elList := Expand(elements, numbers);
      var coords := Origins(|elList|);
      reports := reports + [Report(elements, numbers, warned, elList, coords)];
      i := i + 1;
    }
  }
}
