/** The header clean-up on the header shapes the workbook uses: a name
    followed by "(€)", "(optional)" or "(inferred €)". */
module HeaderExamples {
  import opened Wrappers
  import opened Headers

  /** A name that strip() leaves alone and that holds no bracket. */
  predicate PlainName(w: string) {
    w != [] && !IsSpace(w[0]) && !IsSpace(w[|w| - 1]) && '(' !in w
  }

  const EuroTail := " " + "(€)"
  const OptionalTail := " " + "(optional)"
  const InferredTail := " " + "(inferred" + " " + "€)"

  /** `\s*` then the literals of x match a blank followed by x, and the
      rest of the pattern matches what follows. */
  lemma SpacedWordThen(x: string, y: string, p: seq<Tok>)
    requires x != [] && !IsSpace(x[0])
    ensures MatchAt(" " + x + y, [Spaces] + Lits(x) + p) ==
      (match MatchAt(y, p) case Some(n) => Some(1 + |x| + n) case None => None)
  {
    var t := " " + x + y;
    SpaceRunAt(t, 1);
    assert [Spaces] + Lits(x) + p == [Spaces] + (Lits(x) + p);
    MatchSpacesThen(t, Lits(x) + p);
    assert t[1..] == x + y;
    assert (x + y)[..|x|] == x && (x + y)[|x|..] == y;
    MatchLitsThen(x + y, x, p);
  }

  lemma EuroTailMatches()
    ensures MatchAt(EuroTail, EuroPattern) == Some(|EuroTail|)
  {
    SpacedWordThen("(€)", [], []);
    assert EuroTail == " " + "(€)" + [];
    assert EuroPattern == [Spaces] + Lits("(€)") + [];
  }

  lemma OptionalTailMatches()
    ensures MatchAt(OptionalTail, OptionalPattern) == Some(|OptionalTail|)
  {
    SpacedWordThen("(optional)", [], []);
    assert OptionalTail == " " + "(optional)" + [];
    assert OptionalPattern == [Spaces] + Lits("(optional)") + [];
  }

  lemma InferredTailMatches()
    ensures MatchAt(InferredTail, InferredEuroPattern) == Some(|InferredTail|)
  {
    var x, y := "(inferred", "€)";
    var rest := [Spaces] + Lits(y);
    SpacedWordThen(y, [], []);
    assert rest == [Spaces] + Lits(y) + [];
    assert " " + y == " " + y + [];
    SpacedWordThen(x, " " + y, rest);
    assert InferredEuroPattern == [Spaces] + Lits(x) + rest;
    assert InferredTail == " " + x + (" " + y);
  }

  /** A plain name followed by a whole match of p: re.sub replaces the
      match and keeps the name. */
  lemma ReplaceTail(w: string, m: string, p: seq<Tok>, rep: string)
    requires EndsInLiteral(p) && |p| >= 2 && p[0] == Spaces && p[1] == Lit('(')
    requires PlainName(w) && MatchAt(m, p) == Some(|m|)
    ensures Replace(w + m, p, rep) == w + rep
  {
    var s := w + m;
    NameHasNoMatch(s, w, p);
    assert s[|w|..] == m && s[..|w|] == w;
    ReplaceWholeTail(s, p, rep, |w|);
  }

  /** The first match reaches the end of the text: re.sub keeps what lies
      before it and ends with the replacement. */
  lemma ReplaceWholeTail(s: string, p: seq<Tok>, rep: string, k: nat)
    requires EndsInLiteral(p) && k < |s| && MatchAt(s[k..], p) == Some(|s| - k)
    requires forall j {:trigger MatchAt(s[j..], p)} :: 0 <= j < k ==> MatchAt(s[j..], p).None?
    ensures Replace(s, p, rep) == s[..k] + rep
  {
    ReplaceAtFirstMatch(s, p, rep, k);
    assert s[|s|..] == [];
    Rejoin(Replace(s, p, rep), s[..k], s[..k], rep, Replace(s[|s|..], p, rep));
  }

  /** No match of a `\s*(` pattern starts inside a plain name. */
  lemma NameHasNoMatch(s: string, w: string, p: seq<Tok>)
    requires |p| >= 2 && p[0] == Spaces && p[1] == Lit('(')
    requires PlainName(w) && |w| <= |s| && s[..|w|] == w
    ensures forall j {:trigger MatchAt(s[j..], p)} :: 0 <= j < |w| ==> MatchAt(s[j..], p).None?
  {
    assert s[..|w|][|w| - 1] == w[|w| - 1];
    NoMatchUpTo(s, p, '(', |w| - 1);
  }

  lemma Rejoin(x: string, a: string, a': string, b: string, c: string)
    requires x == a + b + c && a == a' && c == []
    ensures x == a' + b
  {
  }

  /** Neither `\s*\(optional\)` nor `\s*\(€\)` matches " (inferred €)". */
  lemma InferredTailSkipsOthers(w: string)
    requires PlainName(w)
    ensures Replace(w + InferredTail, OptionalPattern, "") == w + InferredTail
    ensures Replace(w + InferredTail, EuroPattern, " €") == w + InferredTail
  {
    PatternsOpenWithParen();
    var s := w + InferredTail;
    var q := |w| + 1;
    assert s[..q] == w + " ";
    assert s[q + 1..] == "inferred €)";
    assert OptionalPattern[2] == Lit('o') && EuroPattern[2] == Lit('€');
    NoMatchAt(s, OptionalPattern, '(', q);
    ReplaceWithoutMatch(s, OptionalPattern, "");
    NoMatchAt(s, EuroPattern, '(', q);
    ReplaceWithoutMatch(s, EuroPattern, " €");
  }

  /** "(€)" after a name becomes " €". */
  lemma CleanEuroTail(w: string)
    requires PlainName(w)
    ensures CleanHeader(w + EuroTail) == w + " €"
  {
    PatternsOpenWithParen();
    var h := w + EuroTail;
    StripBetween(h, 0, |h|);
    assert h[0..|h|] == h;
    assert h[..|w| + 1] == w + " ";
    NoMatchAt(h, OptionalPattern, '(', |w| + 1);
    ReplaceWithoutMatch(h, OptionalPattern, "");
    EuroTailMatches();
    ReplaceTail(w, EuroTail, EuroPattern, " €");
    ReplaceWithoutLiteral(w + " €", InferredEuroPattern, '(', " €");
  }

  /** "(optional)" after a name is dropped with the blank before it. */
  lemma CleanOptionalTail(w: string)
    requires PlainName(w)
    ensures CleanHeader(w + OptionalTail) == w
  {
    PatternsOpenWithParen();
    var h := w + OptionalTail;
    StripBetween(h, 0, |h|);
    assert h[0..|h|] == h;
    OptionalTailMatches();
    ReplaceTail(w, OptionalTail, OptionalPattern, "");
    assert w + "" == w;
    ReplaceWithoutLiteral(w, EuroPattern, '(', " €");
    ReplaceWithoutLiteral(w, InferredEuroPattern, '(', " €");
  }

  /** "(inferred €)" after a name becomes " €". */
  lemma CleanInferredTail(w: string)
    requires PlainName(w)
    ensures CleanHeader(w + InferredTail) == w + " €"
  {
    PatternsOpenWithParen();
    var h := w + InferredTail;
    StripBetween(h, 0, |h|);
    assert h[0..|h|] == h;
    InferredTailSkipsOthers(w);
    InferredTailMatches();
    ReplaceTail(w, InferredTail, InferredEuroPattern, " €");
  }

  /** Blanks around a header do not change what it becomes. */
  lemma CleanHeaderPadded(w: string)
    requires w != [] && !IsSpace(w[0]) && !IsSpace(w[|w| - 1])
    ensures CleanHeader(" " + w + " ") == CleanHeader(w)
  {
    var h := " " + w + " ";
    StripBetween(h, 1, |h| - 1);
    assert h[1..|h| - 1] == w;
    StripBetween(w, 0, |w|);
    assert w[0..|w|] == w;
  }

  lemma RealMrrHeader()
    ensures CleanHeader(" Real MRR (€) ") == "Real MRR €"
  {
    var w := "Real MRR";
    assert PlainName(w);
    assert " Real MRR (€) " == " " + (w + EuroTail) + " ";
    CleanHeaderPadded(w + EuroTail);
    CleanEuroTail(w);
    assert w + " €" == "Real MRR €";
  }

  /** No alias source is ten characters long. */
  lemma TenCharactersKept(h: string)
    requires |h| == 10
    ensures AliasOf(h) == h
  {
    assert |Aliases[0].0| == 11 && |Aliases[1].0| == 17 && |Aliases[2].0| == 12 && |Aliases[3].0| == 15;
  }

  /** "Real MRR (€)" is already the name the rest of the script reads. */
  lemma RealMrrNormalized()
    ensures NormalizeHeader(" Real MRR (€) ") == "Real MRR €"
  {
    RealMrrHeader();
    TenCharactersKept("Real MRR €");
  }

  lemma ChurnHeader()
    ensures CleanHeader("Churn (optional)") == "Churn"
  {
    var w := "Churn";
    assert PlainName(w);
    assert "Churn (optional)" == w + OptionalTail;
    CleanOptionalTail(w);
  }

  lemma MrrCalculatedHeader()
    ensures CleanHeader("MRR Calculated (inferred €)") == "MRR Calculated €"
  {
    var w := "MRR Calculated";
    assert PlainName(w);
    assert "MRR Calculated (inferred €)" == w + InferredTail;
    CleanInferredTail(w);
    assert w + " €" == "MRR Calculated €";
  }

  /** normalize_cols already turns "Sales & Marketing Spend (€)" into the €
      spelling, so the rename before the CAC step finds nothing to do. */
  lemma SpendSpellingNormalized()
    ensures NormalizeHeader("Sales & Marketing Spend (€)") == "Sales & Marketing Spend €"
  {
    var w := "Sales & Marketing Spend";
    assert PlainName(w);
    assert "Sales & Marketing Spend (€)" == w + EuroTail;
    CleanEuroTail(w);
    assert w + " €" == "Sales & Marketing Spend €";
    LongNameKept("Sales & Marketing Spend €");
  }

  /** No alias source is longer than 17 characters. */
  lemma LongNameKept(h: string)
    requires |h| > 17
    ensures AliasOf(h) == h
  {
    assert |Aliases[0].0| == 11 && |Aliases[1].0| == 17 && |Aliases[2].0| == 12 && |Aliases[3].0| == 15;
  }
}
