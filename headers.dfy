/** Column-header clean-up of a sheet (normalize_cols) and the check for the
    Data sheet's required columns. */
module Headers {
  import opened Wrappers

  /** The whitespace that Python's str.strip() and the regex class \s treat
      as blank among the first 128 characters: space, \t, \n, \v, \f, \r
      and the four separators \x1c to \x1f. */
  predicate IsSpace(c: char) {
    c == ' ' || '\t' <= c <= '\r' || '\U{1C}' <= c <= '\U{1F}'
  }

  /** Drops trailing whitespace. */
  function TrimEnd(s: string): (r: string)
    ensures |r| <= |s| && r == s[..|r|]
    ensures forall i :: |r| <= i < |s| ==> IsSpace(s[i])
    ensures r != [] ==> !IsSpace(r[|r| - 1])
  {
    if s != [] && IsSpace(s[|s| - 1]) then TrimEnd(s[..|s| - 1]) else s
  }

  /** A prefix of a suffix is a slice. */
  lemma {:induction false} SliceOfSuffix(s: string, k: nat, r: string)
    requires k <= |s| && |r| <= |s| - k && r == s[k..][..|r|]
    ensures r == s[k..k + |r|]
  {
  }

  /** Whatever lies beyond a prefix of a suffix of s lies beyond the slice. */
  lemma {:induction false} BlanksBeyondSlice(s: string, k: nat, m: nat)
    requires k + m <= |s|
    requires forall j :: m <= j < |s| - k ==> IsSpace(s[k..][j])
    ensures forall i :: k + m <= i < |s| ==> IsSpace(s[i])
  {
    forall i | k + m <= i < |s| ensures IsSpace(s[i]) {
      assert s[i] == s[k..][i - k];
    }
  }

  /** Python's str.strip(): the text between the leading run of blanks and
      the trailing one, which begins and ends with a non-blank character. */
  function Strip(s: string): (r: string)
    ensures SpaceRun(s) + |r| <= |s| && r == s[SpaceRun(s)..SpaceRun(s) + |r|]
    ensures forall i :: SpaceRun(s) + |r| <= i < |s| ==> IsSpace(s[i])
    ensures r != [] ==> !IsSpace(r[0]) && !IsSpace(r[|r| - 1])
  {
    var k := SpaceRun(s);
    var r := TrimEnd(s[k..]);
    SliceOfSuffix(s, k, r);
    BlanksBeyondSlice(s, k, |r|);
    r
  }

  /** Strip only removes characters. */
  lemma StripAddsNothing(s: string, c: char)
    requires c in Strip(s)
    ensures c in s
  {
    var k := SpaceRun(s);
    var r := Strip(s);
    var i :| 0 <= i < |r| && r[i] == c;
    assert s[k + i] == r[i];
  }

  /** The leading run of blanks ends at the first non-blank character. */
  lemma SpaceRunAt(s: string, lo: nat)
    requires lo < |s| && !IsSpace(s[lo])
    requires forall i :: 0 <= i < lo ==> IsSpace(s[i])
    ensures SpaceRun(s) == lo
  {
  }

  /** Strip keeps exactly the text from the first to the last non-blank
      character. */
  lemma StripBetween(s: string, lo: nat, hi: nat)
    requires lo < hi <= |s| && !IsSpace(s[lo]) && !IsSpace(s[hi - 1])
    requires forall i :: 0 <= i < lo ==> IsSpace(s[i])
    requires forall i :: hi <= i < |s| ==> IsSpace(s[i])
    ensures Strip(s) == s[lo..hi]
  {
    SpaceRunAt(s, lo);
    var r := Strip(s);
    assert lo + |r| >= hi;
    assert r[|r| - 1] == s[lo + |r| - 1];
    assert lo + |r| == hi;
  }

  // ---------------------------------------------------------------------
  // The three regular expressions of normalize_cols, as token patterns.
  // `Spaces` is the greedy `\s*`; in every pattern below it is followed by a
  // literal that is not whitespace, so matching it greedily without
  // backtracking finds exactly the match the regex engine finds.
  // ---------------------------------------------------------------------

  datatype Tok = Spaces | Lit(c: char)

  function Lits(s: string): seq<Tok> {
    seq(|s|, i requires 0 <= i < |s| => Lit(s[i]))
  }

  /** A pattern that ends in a literal never matches the empty text. */
  predicate EndsInLiteral(p: seq<Tok>) {
    |p| > 0 && p[|p| - 1].Lit?
  }

  /** `\s*\(optional\)` */
  const OptionalPattern: seq<Tok> := [Spaces] + Lits("(optional)")
  /** `\s*\(€\)` */
  const EuroPattern: seq<Tok> := [Spaces] + Lits("(€)")
  /** `\s*\(inferred\s*€\)` */
  const InferredEuroPattern: seq<Tok> := [Spaces] + Lits("(inferred") + [Spaces] + Lits("€)")

  /** Length of the longest whitespace run at the start of `s`. */
  function SpaceRun(s: string): (n: nat)
    ensures n <= |s|
    ensures forall i :: 0 <= i < n ==> IsSpace(s[i])
    ensures n < |s| ==> !IsSpace(s[n])
  {
    if s != [] && IsSpace(s[0]) then 1 + SpaceRun(s[1..]) else 0
  }

  /** Reference meaning of a token pattern: the whole of `t` matches `p`,
      where `\s*` may take any number of blanks. */
  predicate Covers(t: string, p: seq<Tok>)
    decreases |p|, |t|
  {
    if p == [] then t == []
    else match p[0]
      case Lit(c) => t != [] && t[0] == c && Covers(t[1..], p[1..])
      case Spaces => Covers(t, p[1..]) || (t != [] && IsSpace(t[0]) && Covers(t[1..], p))
  }

  /** Blanks in front of a text that matches the rest of the pattern are
      taken by a leading `\s*`. */
  lemma {:induction false} BlanksThenCovers(t: string, p: seq<Tok>, k: nat)
    requires p != [] && p[0] == Spaces && k <= |t|
    requires forall i :: 0 <= i < k ==> IsSpace(t[i])
    requires Covers(t[k..], p[1..])
    ensures Covers(t, p)
    decreases k
  {
    if k == 0 {
      assert t[0..] == t;
    } else {
      assert t[1..][k - 1..] == t[k..];
      BlanksThenCovers(t[1..], p, k - 1);
    }
  }

  /** Length of the match of `p` at the very start of `s`, if there is one:
      `\s*` takes the whole run of blanks (greedy, no backtracking). */
  function MatchAt(s: string, p: seq<Tok>): (r: Option<nat>)
    ensures r.Some? ==> r.value <= |s| && (EndsInLiteral(p) ==> r.value > 0)
    decreases p
  {
    if p == [] then Some(0)
    else match p[0]
      case Spaces =>
        var k := SpaceRun(s);
        (match MatchAt(s[k..], p[1..])
         case Some(n) => Some(k + n)
         case None => None)
      case Lit(c) =>
        if s != [] && s[0] == c then
          (match MatchAt(s[1..], p[1..])
           case Some(n) => Some(n + 1)
           case None => None)
        else None
  }

  /** What MatchAt returns is a match in the sense of Covers. */
  lemma {:induction false} MatchAtSound(s: string, p: seq<Tok>)
    ensures MatchAt(s, p).Some? ==> Covers(s[..MatchAt(s, p).value], p)
    decreases p
  {
    if p != [] && MatchAt(s, p).Some? {
      match p[0]
      case Spaces =>
        var k := SpaceRun(s);
        MatchAtSound(s[k..], p[1..]);
        var n := MatchAt(s[k..], p[1..]).value;
        assert s[..k + n][k..] == s[k..][..n];
        BlanksThenCovers(s[..k + n], p, k);
      case Lit(c) =>
        MatchAtSound(s[1..], p[1..]);
        var n := MatchAt(s[1..], p[1..]).value;
        assert s[..n + 1][1..] == s[1..][..n];
    }
  }

  /** Every `\s*` of the pattern is followed by a literal that is not blank,
      so there is only one way to split blanks between `\s*` and the rest. */
  predicate Greedy(p: seq<Tok>) {
    forall i :: 0 <= i < |p| && p[i] == Spaces ==> i + 1 < |p| && p[i + 1].Lit? && !IsSpace(p[i + 1].c)
  }

  lemma GreedyTail(p: seq<Tok>)
    requires p != [] && Greedy(p)
    ensures Greedy(p[1..])
  {
    forall i | 0 <= i < |p[1..]| && p[1..][i] == Spaces
      ensures i + 1 < |p[1..]| && p[1..][i + 1].Lit? && !IsSpace(p[1..][i + 1].c)
    {
      assert p[i + 1] == Spaces;
    }
  }

  /** A text matched by `\s*` then more: some blanks, then a match of the rest. */
  lemma {:induction false} SplitBlanks(t: string, p: seq<Tok>) returns (j: nat)
    requires p != [] && p[0] == Spaces && Covers(t, p)
    ensures j <= |t| && Covers(t[j..], p[1..])
    ensures forall i :: 0 <= i < j ==> IsSpace(t[i])
    decreases |t|
  {
    if Covers(t, p[1..]) {
      j := 0;
      assert t[0..] == t;
    } else {
      var j' := SplitBlanks(t[1..], p);
      j := j' + 1;
      assert t[1..][j'..] == t[j..];
      forall i | 0 <= i < j ensures IsSpace(t[i]) {
        if i > 0 {
          assert t[i] == t[1..][i - 1];
        }
      }
    }
  }

  /** Greedy matching finds every match: for a pattern whose every `\s*` is
      followed by a non-blank literal, a prefix of length n that matches the
      pattern is exactly what MatchAt returns. */
  lemma {:induction false} MatchAtComplete(s: string, p: seq<Tok>, n: nat)
    requires Greedy(p) && n <= |s| && Covers(s[..n], p)
    ensures MatchAt(s, p) == Some(n)
    decreases |p|
  {
    var t := s[..n];
    if p != [] {
      GreedyTail(p);
      match p[0]
      case Lit(c) =>
        assert s[1..][..n - 1] == t[1..];
        MatchAtComplete(s[1..], p[1..], n - 1);
      case Spaces =>
        var j := SplitBlanks(t, p);
        assert p[1].Lit? && !IsSpace(p[1].c);
        SpacesStopAtLiteral(s, n, p, j);
        MatchAtComplete(s[j..], p[1..], n - j);
    }
  }

  /** Blanks that a match gives to `\s*` end where the non-blank literal
      after it begins, so they are the whole leading run of blanks. */
  lemma SpacesStopAtLiteral(s: string, n: nat, p: seq<Tok>, j: nat)
    requires |p| >= 2 && p[1].Lit? && !IsSpace(p[1].c)
    requires j <= n <= |s| && Covers(s[..n][j..], p[1..])
    requires forall i :: 0 <= i < j ==> IsSpace(s[..n][i])
    ensures SpaceRun(s) == j && s[j..][..n - j] == s[..n][j..]
  {
    var t := s[..n];
    assert p[1..][0] == p[1];
    assert t[j..][0] == s[j];
    forall i | 0 <= i < j ensures IsSpace(s[i]) {
      assert s[i] == t[i];
    }
    SpaceRunAt(s, j);
  }

  /** `\s*` in front of a pattern takes the leading blanks, then the rest
      of the pattern matches after them. */
  lemma MatchSpacesThen(t: string, p: seq<Tok>)
    ensures MatchAt(t, [Spaces] + p) ==
      (match MatchAt(t[SpaceRun(t)..], p) case Some(n) => Some(SpaceRun(t) + n) case None => None)
  {
    assert ([Spaces] + p)[1..] == p;
  }

  /** A run of literals in front of a pattern matches the same characters. */
  lemma {:induction false} MatchLitsThen(t: string, w: string, p: seq<Tok>)
    requires |w| <= |t| && t[..|w|] == w
    ensures MatchAt(t, Lits(w) + p) ==
      (match MatchAt(t[|w|..], p) case Some(n) => Some(|w| + n) case None => None)
    decreases |w|
  {
    if w == [] {
      assert Lits(w) + p == p && t[0..] == t;
    } else {
      assert Lits(w) + p == [Lit(w[0])] + (Lits(w[1..]) + p);
      assert t[0] == w[0];
      MatchLitThen(t, w[0], Lits(w[1..]) + p);
      assert t[1..][..|w| - 1] == w[1..];
      assert t[1..][|w| - 1..] == t[|w|..];
      MatchLitsThen(t[1..], w[1..], p);
    }
  }

  /** One literal in front of a pattern matches that character. */
  lemma MatchLitThen(t: string, c: char, q: seq<Tok>)
    requires t != [] && t[0] == c
    ensures MatchAt(t, [Lit(c)] + q) ==
      (match MatchAt(t[1..], q) case Some(n) => Some(n + 1) case None => None)
  {
    assert ([Lit(c)] + q)[1..] == q;
  }

  /** A match of `\s*` and then literals has those literals right after
      the leading blanks. */
  lemma MatchOpening(t: string, p: seq<Tok>, c: char)
    requires |p| >= 2 && p[0] == Spaces && p[1] == Lit(c)
    ensures MatchAt(t, p).Some? ==> SpaceRun(t) < |t| && t[SpaceRun(t)] == c
    ensures MatchAt(t, p).Some? && |p| >= 3 && p[2].Lit? ==>
      SpaceRun(t) + 1 < |t| && t[SpaceRun(t) + 1] == p[2].c
  {
    var k := SpaceRun(t);
    if MatchAt(t, p).Some? {
      var u := t[k..];
      assert MatchAt(u, p[1..]).Some?;
      assert u[0] == t[k];
      if |p| >= 3 && p[2].Lit? {
        assert p[1..][1..] == p[2..];
        assert MatchAt(u[1..], p[2..]).Some?;
        assert u[1..][0] == t[k + 1];
      }
    }
  }

  /** No match can start before a non-blank character when the pattern's
      first literal does not occur up to it. */
  lemma NoMatchUpTo(s: string, p: seq<Tok>, c: char, g: nat)
    requires |p| >= 2 && p[0] == Spaces && p[1] == Lit(c)
    requires g < |s| && !IsSpace(s[g]) && c !in s[..g + 1]
    ensures forall i :: 0 <= i <= g ==> MatchAt(s[i..], p).None?
  {
    forall i | 0 <= i <= g ensures MatchAt(s[i..], p).None? {
      var t := s[i..];
      MatchOpening(t, p, c);
      assert t[g - i] == s[g];
      var k := SpaceRun(t);
      if k < |t| {
        assert t[k] == s[..g + 1][i + k];
      }
    }
  }

  /** No match anywhere when the pattern's first literal c occurs once, at
      q, and is not followed there by the pattern's second literal. */
  lemma NoMatchAt(s: string, p: seq<Tok>, c: char, q: nat)
    requires |p| >= 3 && p[0] == Spaces && p[1] == Lit(c) && p[2].Lit?
    requires q + 1 < |s| && s[q + 1] != p[2].c
    requires c !in s[..q] && c !in s[q + 1..]
    ensures forall i :: 0 <= i < |s| ==> MatchAt(s[i..], p).None?
  {
    forall i | 0 <= i < |s| ensures MatchAt(s[i..], p).None? {
      var t := s[i..];
      MatchOpening(t, p, c);
      var k := SpaceRun(t);
      if k + 1 < |t| {
        assert t[k] == s[i + k] && t[k + 1] == s[i + k + 1];
        if i + k < q {
          assert s[..q][i + k] == s[i + k];
        } else if i + k > q {
          assert s[q + 1..][i + k - q - 1] == s[i + k];
        }
      }
    }
  }

  /** Python's re.sub(p, rep, s): scans left to right, replaces each match
      and resumes after it; a replacement is never scanned again. */
  function Replace(s: string, p: seq<Tok>, rep: string): (r: string)
    requires EndsInLiteral(p)
    ensures rep == [] ==> |r| <= |s|
    decreases |s|
  {
    if s == [] then []
    else
      match MatchAt(s, p)
      case Some(n) => rep + Replace(s[n..], p, rep)
      case None => [s[0]] + Replace(s[1..], p, rep)
  }

  /** Where the pattern matches nowhere, re.sub leaves the text as it is. */
  lemma {:induction false} ReplaceWithoutMatch(s: string, p: seq<Tok>, rep: string)
    requires EndsInLiteral(p)
    requires forall i :: 0 <= i < |s| ==> MatchAt(s[i..], p).None?
    ensures Replace(s, p, rep) == s
    decreases |s|
  {
    if s != [] {
      assert s[0..] == s;
      forall i | 0 <= i < |s| - 1 ensures MatchAt(s[1..][i..], p).None? {
        assert s[1..][i..] == s[i + 1..];
      }
      ReplaceWithoutMatch(s[1..], p, rep);
      assert [s[0]] + s[1..] == s;
    }
  }

  /** One step of the scan: a match at the front is replaced, otherwise the
      first character is kept. */
  lemma ReplaceStep(s: string, p: seq<Tok>, rep: string)
    requires EndsInLiteral(p) && s != []
    ensures MatchAt(s, p).None? ==> Replace(s, p, rep) == [s[0]] + Replace(s[1..], p, rep)
    ensures MatchAt(s, p).Some? ==> Replace(s, p, rep) == rep + Replace(s[MatchAt(s, p).value..], p, rep)
  {
  }

  /** re.sub at the leftmost match: the text before position k is kept, the
      match is replaced, and scanning resumes right after the match. */
  lemma ReplaceAtFirstMatch(s: string, p: seq<Tok>, rep: string, k: nat)
    requires EndsInLiteral(p) && k < |s| && MatchAt(s[k..], p).Some?
    requires forall j {:trigger MatchAt(s[j..], p)} :: 0 <= j < k ==> MatchAt(s[j..], p).None?
    ensures Replace(s, p, rep) == s[..k] + rep + Replace(s[k + MatchAt(s[k..], p).value..], p, rep)
  {
    var n := MatchAt(s[k..], p).value;
    var rest := Replace(s[k + n..], p, rep);
    ReplaceStep(s[k..], p, rep);
    assert s[k..][n..] == s[k + n..];
    var j := k;
    while j > 0
      invariant 0 <= j <= k
      invariant Replace(s[j..], p, rep) == s[j..k] + rep + rest
    {
      KeepOne(s, p, rep, j - 1, k, rest);
      j := j - 1;
    }
    assert s[0..] == s;
  }

  /** A position where nothing matches keeps its character in front of
      what the rest of the scan yields. */
  lemma KeepOne(s: string, p: seq<Tok>, rep: string, i: nat, k: nat, rest: string)
    requires EndsInLiteral(p) && i < k <= |s| && MatchAt(s[i..], p).None?
    requires Replace(s[i + 1..], p, rep) == s[i + 1..k] + rep + rest
    ensures Replace(s[i..], p, rep) == s[i..k] + rep + rest
  {
    ReplaceStep(s[i..], p, rep);
    assert s[i..][1..] == s[i + 1..];
    assert [s[i]] + s[i + 1..k] == s[i..k];
    PrependKept(Replace(s[i..], p, rep), s[i], Replace(s[i + 1..], p, rep), s[i + 1..k], s[i..k], rep, rest);
  }

  lemma PrependKept(x: string, c: char, y: string, a: string, ca: string, b: string, d: string)
    requires x == [c] + y && y == a + b + d && ca == [c] + a
    ensures x == ca + b + d
  {
  }

  /** A pattern that starts with `\s*` and then a literal `c` matches only
      where `c` occurs. */
  lemma {:induction false} MatchNeedsLiteral(s: string, p: seq<Tok>, c: char)
    requires |p| >= 2 && p[0] == Spaces && p[1] == Lit(c)
    requires c !in s
    ensures MatchAt(s, p).None?
  {
    var k := SpaceRun(s);
    if k < |s| {
      assert s[k] in s;
    }
  }

  /** Without the character a pattern's first literal needs, re.sub leaves
      the text as it is. */
  lemma ReplaceWithoutLiteral(s: string, p: seq<Tok>, c: char, rep: string)
    requires c !in s
    requires |p| >= 2 && p[0] == Spaces && p[1] == Lit(c) && EndsInLiteral(p)
    ensures Replace(s, p, rep) == s
  {
    forall i | 0 <= i < |s| ensures MatchAt(s[i..], p).None? {
      assert forall x :: x in s[i..] ==> x in s;
      MatchNeedsLiteral(s[i..], p, c);
    }
    ReplaceWithoutMatch(s, p, rep);
  }

  /** The per-header text rewrite of normalize_cols: strip, drop
      "(optional)", turn "(€)" and "(inferred €)" into " €". */
  function CleanHeader(h: string): string {
    assert Lits("(optional)")[9] == Lit(')') && Lits("(€)")[2] == Lit(')') && Lits("€)")[1] == Lit(')');
    var s0 := Strip(h);
    var s1 := Replace(s0, OptionalPattern, "");
    var s2 := Replace(s1, EuroPattern, " €");
    Replace(s2, InferredEuroPattern, " €")
  }

  /** Each of the three patterns is `\s*` then `(`, and ends in a literal. */
  lemma PatternsOpenWithParen()
    ensures |OptionalPattern| >= 2 && OptionalPattern[0] == Spaces && OptionalPattern[1] == Lit('(')
    ensures |EuroPattern| >= 2 && EuroPattern[0] == Spaces && EuroPattern[1] == Lit('(')
    ensures |InferredEuroPattern| >= 2 && InferredEuroPattern[0] == Spaces && InferredEuroPattern[1] == Lit('(')
    ensures EndsInLiteral(OptionalPattern) && EndsInLiteral(EuroPattern) && EndsInLiteral(InferredEuroPattern)
  {
    assert Lits("(optional)")[9] == Lit(')') && Lits("(€)")[2] == Lit(')') && Lits("€)")[1] == Lit(')');
    assert InferredEuroPattern[1] == Lits("(inferred")[0];
  }

  /** `\s*` then a word that starts with a non-blank character keeps a
      pattern greedy. */
  lemma GreedyPrefix(x: string, q: seq<Tok>)
    requires x != [] && !IsSpace(x[0]) && Greedy(q)
    ensures Greedy([Spaces] + Lits(x) + q)
  {
    var p := [Spaces] + Lits(x) + q;
    forall i | 0 <= i < |p| && p[i] == Spaces
      ensures i + 1 < |p| && p[i + 1].Lit? && !IsSpace(p[i + 1].c)
    {
      if i == 0 {
        assert p[1] == Lit(x[0]);
      } else if i > |x| {
        assert p[i] == q[i - 1 - |x|];
        assert p[i + 1] == q[i - |x|];
      }
    }
  }

  /** Every `\s*` in the three patterns of normalize_cols is followed by a
      non-blank literal, so MatchAtComplete applies to all of them. */
  lemma GreedyPatterns()
    ensures Greedy(OptionalPattern) && Greedy(EuroPattern) && Greedy(InferredEuroPattern)
  {
    GreedyPrefix("(optional)", []);
    assert OptionalPattern == [Spaces] + Lits("(optional)") + [];
    GreedyPrefix("(€)", []);
    assert EuroPattern == [Spaces] + Lits("(€)") + [];
    var tail := [Spaces] + Lits("€)");
    GreedyPrefix("€)", []);
    assert tail == [Spaces] + Lits("€)") + [];
    GreedyPrefix("(inferred", tail);
    assert InferredEuroPattern == [Spaces] + Lits("(inferred") + tail;
  }

  /** A header without parentheses is only stripped. */
  lemma {:induction false} CleanHeaderWithoutParens(h: string)
    requires '(' !in h
    ensures CleanHeader(h) == Strip(h)
  {
    PatternsOpenWithParen();
    var s0 := Strip(h);
    if '(' in s0 {
      StripAddsNothing(h, '(');
    }
    ReplaceWithoutLiteral(s0, OptionalPattern, '(', "");
    ReplaceWithoutLiteral(s0, EuroPattern, '(', " €");
    ReplaceWithoutLiteral(s0, InferredEuroPattern, '(', " €");
    assert CleanHeader(h) == Replace(Replace(Replace(s0, OptionalPattern, ""), EuroPattern, " €"), InferredEuroPattern, " €");
  }

  // ---------------------------------------------------------------------
  // The alias table, applied entry by entry as the source's loop does.
  // ---------------------------------------------------------------------

  const Aliases: seq<(string, string)> := [
    ("Real MRR  €", "Real MRR €"),
    ("MRR Calculated  €", "MRR Calculated €"),
    ("Price MRR  €", "Price MRR €"),
    ("CAC optional  €", "CAC (optional €)")
  ]

  function Rename(h: string, entry: (string, string)): string {
    if h == entry.0 then entry.1 else h
  }

  /** The result of applying the entries of `table` one after another. */
  function RenameAll(h: string, table: seq<(string, string)>): string {
    if table == [] then h else Rename(RenameAll(h, table[..|table| - 1]), table[|table| - 1])
  }

  /** The alias table read as a lookup. */
  function AliasOf(h: string): (r: string)
    ensures forall i :: 0 <= i < |Aliases| && h == Aliases[i].0 ==> r == Aliases[i].1
    ensures (forall i :: 0 <= i < |Aliases| ==> h != Aliases[i].0) ==> r == h
  {
    if h == Aliases[0].0 then Aliases[0].1
    else if h == Aliases[1].0 then Aliases[1].1
    else if h == Aliases[2].0 then Aliases[2].1
    else if h == Aliases[3].0 then Aliases[3].1
    else h
  }

  /** No alias target is itself an alias source, so renaming entry by entry
      is one lookup. */
  lemma RenameAllIsLookup(h: string)
    ensures RenameAll(h, Aliases) == AliasOf(h)
  {
    assert Aliases[..4] == Aliases && Aliases[..0] == [];
    RenameAllStep(h, 0);
    RenameAllStep(h, 1);
    RenameAllStep(h, 2);
    RenameAllStep(h, 3);
  }

  /** One more entry of the table is one more Rename. */
  lemma RenameAllStep(h: string, k: nat)
    requires k < |Aliases|
    ensures RenameAll(h, Aliases[..k + 1]) == Rename(RenameAll(h, Aliases[..k]), Aliases[k])
  {
    assert Aliases[..k + 1][..k] == Aliases[..k];
  }

  /** The header a raw header ends up with. */
  function NormalizeHeader(h: string): string {
    AliasOf(CleanHeader(h))
  }

  // ---------------------------------------------------------------------
  // Sheets
  // ---------------------------------------------------------------------

  /** A sheet as read from the workbook: its header row and its data rows. */
  datatype Sheet<R> = Sheet(headers: seq<string>, rows: seq<R>)

  /** pandas' DataFrame.empty: no column or no row. */
  predicate IsEmptyFrame<R>(s: Sheet<R>) {
    |s.headers| == 0 || |s.rows| == 0
  }

  /** What normalize_cols returns for an absent (None) or present sheet. */
  function NormalizedSheet<R>(s: Option<Sheet<R>>): (r: Sheet<R>)
    ensures (s.None? || IsEmptyFrame(s.value)) ==> r == Sheet([], [])
    ensures s.Some? && !IsEmptyFrame(s.value) ==>
      r.rows == s.value.rows && |r.headers| == |s.value.headers|
    ensures s.Some? && !IsEmptyFrame(s.value) ==>
      forall i :: 0 <= i < |r.headers| ==> r.headers[i] == NormalizeHeader(s.value.headers[i])
  {
    if s.None? || IsEmptyFrame(s.value) then Sheet([], [])
    else Sheet(seq(|s.value.headers|, i requires 0 <= i < |s.value.headers| => NormalizeHeader(s.value.headers[i])),
               s.value.rows)
  }

  /** df.rename(columns={key: value}, inplace=True): every header equal
      to `key` becomes `value`. */
  method RenameColumn(cols: array<string>, key: string, value: string)
    modifies cols
    ensures forall j :: 0 <= j < cols.Length ==> cols[j] == Rename(old(cols[j]), (key, value))
  {
    for j := 0 to cols.Length
      invariant forall m :: 0 <= m < j ==> cols[m] == Rename(old(cols[m]), (key, value))
      invariant forall m :: j <= m < cols.Length ==> cols[m] == old(cols[m])
    {
      if cols[j] == key {
        cols[j] := value;
      }
    }
  }

  /** normalize_cols: the headers are cleaned as a whole column, then the
      alias table is applied entry by entry, renaming in place every header
      equal to the entry's key when the sheet has that header. */
  method NormalizeCols<R>(s: Option<Sheet<R>>) returns (r: Sheet<R>)
    ensures r == NormalizedSheet(s)
  {
    if s.None? || IsEmptyFrame(s.value) {
      return Sheet([], []);
    }
    var raw := s.value.headers;
    ghost var cleaned := seq(|raw|, i requires 0 <= i < |raw| => CleanHeader(raw[i]));
    var cols := new string[|raw|](i requires 0 <= i < |raw| => CleanHeader(raw[i]));
    assert Aliases[..0] == [];
    for k := 0 to |Aliases|
      invariant forall j :: 0 <= j < cols.Length ==> cols[j] == RenameAll(cleaned[j], Aliases[..k])
    {
      var entry := Aliases[k];
      forall j | 0 <= j < cols.Length ensures RenameAll(cleaned[j], Aliases[..k + 1]) == Rename(cols[j], entry) {
        RenameAllStep(cleaned[j], k);
      }
      if entry.0 in cols[..] {
        RenameColumn(cols, entry.0, entry.1);
      } else {
        assert forall j :: 0 <= j < cols.Length ==> cols[j] == cols[..][j];
      }
    }
    forall j | 0 <= j < cols.Length ensures cols[j] == NormalizeHeader(raw[j]) {
      assert Aliases[..|Aliases|] == Aliases;
      RenameAllIsLookup(cleaned[j]);
    }
    r := Sheet(cols[..], s.value.rows);
  }

  // ---------------------------------------------------------------------
  // Required columns of the Data sheet
  // ---------------------------------------------------------------------

  const Required: seq<string> := ["Date", "Plan", "New Customers", "Lost Customers"]

  /** Position of `c` in `s` (|s| when absent). */
  function Rank(s: seq<string>, c: string): (k: nat)
    ensures k <= |s|
    ensures k < |s| ==> s[k] == c
    ensures forall i :: 0 <= i < k ==> s[i] != c
  {
    if s == [] then 0 else if s[0] == c then 0 else 1 + Rank(s[1..], c)
  }

  predicate Distinct(s: seq<string>) {
    forall i, j :: 0 <= i < j < |s| ==> s[i] != s[j]
  }

  /** The entries of `needed` that `headers` lacks, in the order of `needed`. */
  function MissingFrom(needed: seq<string>, headers: seq<string>): (miss: seq<string>)
    ensures forall c :: c in miss <==> c in needed && c !in headers
    ensures |miss| <= |needed|
  {
    if needed == [] then []
    else if needed[0] in headers then MissingFrom(needed[1..], headers)
    else [needed[0]] + MissingFrom(needed[1..], headers)
  }

  /** The missing columns keep the order of the needed list and are listed
      once each. */
  lemma {:induction false} MissingFromOrdered(needed: seq<string>, headers: seq<string>)
    requires Distinct(needed)
    ensures var miss := MissingFrom(needed, headers);
      Distinct(miss) &&
      forall i, j :: 0 <= i < j < |miss| ==> Rank(needed, miss[i]) < Rank(needed, miss[j])
  {
    if needed != [] {
      var rest := MissingFrom(needed[1..], headers);
      assert Distinct(needed[1..]);
      MissingFromOrdered(needed[1..], headers);
      assert needed[0] !in needed[1..] by {
        forall k | 0 <= k < |needed[1..]| ensures needed[1..][k] != needed[0] {
          assert needed[1..][k] == needed[k + 1];
        }
      }
      var miss := MissingFrom(needed, headers);
      var head := if needed[0] in headers then 0 else 1;
      assert miss == if head == 0 then rest else [needed[0]] + rest;
      forall i, j | 0 <= i < j < |miss|
        ensures miss[i] != miss[j] && Rank(needed, miss[i]) < Rank(needed, miss[j])
      {
        assert miss[j] == rest[j - head] && rest[j - head] in rest;
        if i >= head {
          assert miss[i] == rest[i - head] && rest[i - head] in rest;
        }
      }
    }
  }

  /** The list the Data sheet check reports; the pipeline stops when it is
      not empty. */
  function MissingRequired(headers: seq<string>): (miss: seq<string>)
    ensures miss == [] <==> forall c :: c in Required ==> c in headers
  {
    var miss := MissingFrom(Required, headers);
    assert forall c :: c in Required && c !in headers ==> c in miss;
    assert miss != [] ==> miss[0] in Required && miss[0] !in headers;
    miss
  }

  /** An absent or empty Data sheet lacks all four required columns. */
  lemma EmptySheetMissesAll<R>(s: Option<Sheet<R>>)
    requires s.None? || IsEmptyFrame(s.value)
    ensures MissingRequired(NormalizedSheet(s).headers) == Required
  {
    assert NormalizedSheet(s).headers == [];
    MissingFromNoHeaders(Required);
  }

  /** Against no headers at all, every needed column is missing. */
  lemma {:induction false} MissingFromNoHeaders(needed: seq<string>)
    ensures MissingFrom(needed, []) == needed
  {
    if needed != [] {
      MissingFromNoHeaders(needed[1..]);
      assert [needed[0]] + needed[1..] == needed;
    }
  }
}
