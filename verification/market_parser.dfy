/** The market normalizer: free text describing a bet ("Over 2.5", "Draw",
    "BTTS") turned into a structured market with a type, a selection and an
    optional line. */
module MarketParser {
  import opened Wrappers
  import opened Text

  datatype ParsedMarket = ParsedMarket(marketType: string, selection: string, line: Option<real>)

  // ---------------------------------------------------------------------
  // The pattern  \b(over|under)\s*(\d+(?:\.\d+)?)\b  with the i flag,
  // searched for the leftmost match with JavaScript's backtracking rules.
  // ---------------------------------------------------------------------

  /** A match of the over/under pattern starting at `start`: the word, the
      integer digits `s[numStart..intEnd]` and, when `numEnd > intEnd`, the
      fraction digits `s[intEnd + 1..numEnd]` after a decimal point. */
  datatype OverUnderMatch = OverUnderMatch(word: string, start: nat, numStart: nat, intEnd: nat, numEnd: nat)

  /** `\b` at position `i`: exactly one of the neighbouring characters is a
      word character (outside the string counts as a non-word character). */
  predicate BoundaryAt(s: string, i: nat)
    requires i <= |s|
  {
    (i > 0 && IsWordChar(s[i - 1])) != (i < |s| && IsWordChar(s[i]))
  }

  /** The lower-case literal `w` occurs at `i`, compared case-insensitively. */
  predicate LiteralAt(s: string, i: nat, w: string) {
    i + |w| <= |s| && forall k :: 0 <= k < |w| ==> LowerChar(s[i + k]) == w[k]
  }

  /** `\.\d+` followed by `\b`, where the greedy `\d+` first reaches `e` and
      then gives back one digit at a time, down to a single digit after
      `start`. Yields the end of the whole match. */
  function TryFractionDigits(s: string, start: nat, e: nat): Option<nat>
    requires start <= e <= |s|
    decreases e - start
  {
    if e <= start then None
    else if BoundaryAt(s, e) then Some(e)
    else TryFractionDigits(s, start, e - 1)
  }

  /** What follows integer digits ending at `e`: the optional fraction group,
      tried first because `?` is greedy, then skipped; then `\b`. */
  function TryAfterInteger(s: string, e: nat): Option<nat>
    requires e <= |s|
  {
    var withFraction :=
      if e < |s| && s[e] == '.' then TryFractionDigits(s, e + 1, DigitRunEnd(s, e + 1)) else None;
    if withFraction.Some? then withFraction
    else if BoundaryAt(s, e) then Some(e)
    else None
  }

  /** `\d+` starting at `q`, trying the ends `e`, `e - 1`, ..., `q + 1` in turn.
      Yields the end of the integer digits and the end of the match. */
  function TryInteger(s: string, q: nat, e: nat): Option<(nat, nat)>
    requires q <= e <= |s|
    decreases e - q
  {
    if e <= q then None
    else
      match TryAfterInteger(s, e)
      case Some(stop) => Some((e, stop))
      case None => TryInteger(s, q, e - 1)
  }

  /** `\s*` starting at `a`, trying the ends `j`, `j - 1`, ..., `a` in turn,
      each followed by the number. */
  function TrySpaces(s: string, a: nat, j: nat): Option<(nat, nat, nat)>
    requires a <= j <= |s|
    decreases j - a
  {
    match TryInteger(s, j, DigitRunEnd(s, j))
    case Some((ie, stop)) => Some((j, ie, stop))
    case None => if j <= a then None else TrySpaces(s, a, j - 1)
  }

  /** One alternative of `(over|under)` at `p`, then the rest of the pattern. */
  function TryWord(s: string, p: nat, w: string): Option<OverUnderMatch>
    requires p <= |s|
  {
    if !LiteralAt(s, p, w) then None
    else
      match TrySpaces(s, p + |w|, SpaceRunEnd(s, p + |w|))
      case Some((q, ie, stop)) => Some(OverUnderMatch(w, p, q, ie, stop))
      case None => None
  }

  /** The pattern tried at position `p`, alternatives in source order. */
  function MatchAt(s: string, p: nat): Option<OverUnderMatch>
    requires p <= |s|
  {
    if !BoundaryAt(s, p) then None
    else
      var over := TryWord(s, p, "over");
      if over.Some? then over else TryWord(s, p, "under")
  }

  /** The shape every match has: the word at `start`, integer digits, and an
      optional point followed by at least one digit. */
  predicate WellFormedMatch(s: string, m: OverUnderMatch) {
    && (m.word == "over" || m.word == "under")
    && LiteralAt(s, m.start, m.word)
    && m.start + |m.word| <= m.numStart < m.intEnd <= m.numEnd <= |s|
    && AllDigits(s[m.numStart..m.intEnd])
    && (m.numEnd > m.intEnd ==>
          s[m.intEnd] == '.' && m.intEnd + 1 < m.numEnd && AllDigits(s[m.intEnd + 1..m.numEnd]))
  }

  /** The same pattern read without backtracking: whitespace and digits are
      taken greedily, the fraction is kept when a word boundary follows it and
      dropped when a boundary follows the integer part instead. */
  function GreedyMatchAt(s: string, p: nat): (r: Option<OverUnderMatch>)
    requires p <= |s|
    ensures r.Some? ==> WellFormedMatch(s, r.value) && r.value.start == p
  {
    if !BoundaryAt(s, p) then None
    else if LiteralAt(s, p, "over") then GreedyNumber(s, p, "over")
    else if LiteralAt(s, p, "under") then GreedyNumber(s, p, "under")
    else None
  }

  function GreedyNumber(s: string, p: nat, w: string): (r: Option<OverUnderMatch>)
    requires (w == "over" || w == "under") && LiteralAt(s, p, w)
    ensures r.Some? ==> WellFormedMatch(s, r.value) && r.value.start == p && r.value.word == w
  {
    var q := SpaceRunEnd(s, p + |w|);
    match GreedyDigits(s, q)
    case Some((ie, stop)) => Some(OverUnderMatch(w, p, q, ie, stop))
    case None => None
  }

  /** The number starting at `q` read greedily: the end of its integer digits
      and the end of the match. */
  function GreedyDigits(s: string, q: nat): (r: Option<(nat, nat)>)
    requires q <= |s|
    ensures r.Some? ==> q < r.value.0 <= r.value.1 <= |s| && AllDigits(s[q..r.value.0])
    ensures r.Some? && r.value.1 > r.value.0 ==>
      s[r.value.0] == '.' && r.value.0 + 1 < r.value.1 && AllDigits(s[r.value.0 + 1..r.value.1])
  {
    var ie := DigitRunEnd(s, q);
    assert AllDigits(s[q..ie]);
    if ie == q then None
    else if ie < |s| && s[ie] == '.' && DigitRunEnd(s, ie + 1) > ie + 1 && BoundaryAt(s, DigitRunEnd(s, ie + 1)) then
      var fe := DigitRunEnd(s, ie + 1);
      assert AllDigits(s[ie + 1..fe]);
      Some((ie, fe))
    else if BoundaryAt(s, ie) then Some((ie, ie))
    else None
  }

  lemma {:induction false} FractionRetreatFails(s: string, start: nat, e: nat)
    requires start <= e < |s| && IsDigit(s[e])
    requires forall k :: start <= k < e ==> IsDigit(s[k])
    ensures TryFractionDigits(s, start, e) == None
    decreases e - start
  {
    if e > start {
      FractionRetreatFails(s, start, e - 1);
    }
  }

  lemma FractionGreedy(s: string, start: nat)
    requires start <= |s|
    ensures TryFractionDigits(s, start, DigitRunEnd(s, start)) ==
      var e := DigitRunEnd(s, start); if e > start && BoundaryAt(s, e) then Some(e) else None
  {
    var e := DigitRunEnd(s, start);
    if e > start && !BoundaryAt(s, e) {
      FractionRetreatFails(s, start, e - 1);
    }
  }

  lemma {:induction false} IntegerRetreatFails(s: string, q: nat, e: nat)
    requires q <= e < |s| && IsDigit(s[e])
    requires forall k :: q <= k < e ==> IsDigit(s[k])
    ensures TryInteger(s, q, e) == None
    decreases e - q
  {
    if e > q {
      assert TryAfterInteger(s, e) == None;
      IntegerRetreatFails(s, q, e - 1);
    }
  }

  lemma {:induction false} SpacesRetreatFails(s: string, a: nat, j: nat)
    requires a <= j < |s|
    requires forall k :: a <= k <= j ==> IsSpace(s[k])
    ensures TrySpaces(s, a, j) == None
    decreases j - a
  {
    assert DigitRunEnd(s, j) == j;
    if j > a {
      SpacesRetreatFails(s, a, j - 1);
    }
  }

  /** After the word: only the greedy whitespace run can lead to a match. */
  lemma SpacesGreedy(s: string, a: nat)
    requires a <= |s|
    ensures TrySpaces(s, a, SpaceRunEnd(s, a)) ==
      var q := SpaceRunEnd(s, a);
      match TryInteger(s, q, DigitRunEnd(s, q))
      case Some((ie, stop)) => Some((q, ie, stop))
      case None => None
  {
    var q := SpaceRunEnd(s, a);
    if q > a {
      SpacesRetreatFails(s, a, q - 1);
    }
  }

  /** The integer part is taken whole; only the fraction may be given back. */
  lemma IntegerGreedy(s: string, q: nat)
    requires q <= |s|
    ensures TryInteger(s, q, DigitRunEnd(s, q)) == GreedyDigits(s, q)
  {
    var ie := DigitRunEnd(s, q);
    if ie > q {
      if ie < |s| && s[ie] == '.' {
        FractionGreedy(s, ie + 1);
      }
      if TryAfterInteger(s, ie).None? {
        IntegerRetreatFails(s, q, ie - 1);
      }
    }
  }

  lemma WordGreedy(s: string, p: nat, w: string)
    requires p <= |s| && (w == "over" || w == "under")
    ensures TryWord(s, p, w) == if LiteralAt(s, p, w) then GreedyNumber(s, p, w) else None
  {
    if LiteralAt(s, p, w) {
      var a := p + |w|;
      var q := SpaceRunEnd(s, a);
      SpacesGreedy(s, a);
      IntegerGreedy(s, q);
      var t := TrySpaces(s, a, q);
      var g := GreedyDigits(s, q);
      assert t == (if g.Some? then Some((q, g.value.0, g.value.1)) else None);
    }
  }

  /** Backtracking never helps this pattern beyond dropping the fraction: the
      backtracking matcher and the greedy reading agree at every position. */
  lemma MatchAtIsGreedy(s: string, p: nat)
    requires p <= |s|
    ensures MatchAt(s, p) == GreedyMatchAt(s, p)
  {
    WordGreedy(s, p, "over");
    WordGreedy(s, p, "under");
    assert !(LiteralAt(s, p, "over") && LiteralAt(s, p, "under")) by {
      if LiteralAt(s, p, "over") {
        assert LowerChar(s[p + 0]) == "over"[0];
        assert "under"[0] != "over"[0];
      }
    }
  }

  /** The leftmost match at or after position `p`, as `String.prototype.match`
      finds it. */
  function SearchFrom(s: string, p: nat): (r: Option<OverUnderMatch>)
    requires p <= |s|
    ensures r.Some? ==> p <= r.value.start <= |s| && MatchAt(s, r.value.start) == r
    ensures r.Some? ==> WellFormedMatch(s, r.value)
    ensures forall k :: p <= k <= |s| && (r.None? || k < r.value.start) ==> MatchAt(s, k).None?
    decreases |s| - p
  {
    var m := MatchAt(s, p);
    MatchAtIsGreedy(s, p);
    if m.Some? then m else if p == |s| then None else SearchFrom(s, p + 1)
  }

  /** The number a well-formed match captured, as `Number(match[2])` reads it. */
  function MatchedLine(s: string, m: OverUnderMatch): real
    requires WellFormedMatch(s, m)
  {
    var frac := if m.numEnd > m.intEnd then s[m.intEnd + 1..m.numEnd] else "";
    DecimalValue(s[m.numStart..m.intEnd], frac)
  }

  /** The market a match describes: its word is the selection and its number
      the line. */
  function MarketOfMatch(text: string, m: OverUnderMatch): ParsedMarket
    requires WellFormedMatch(text, m)
  {
    ParsedMarket("over_under", m.word, Some(MatchedLine(text, m)))
  }

  /** `parseOverUnder`: the leftmost over/under match turned into a market
      whose selection is the matched word and whose line is the captured
      number (stated by `ParseOverUnderLeftmost`). */
  function ParseOverUnder(text: string): (r: Option<ParsedMarket>)
    ensures r.Some? <==> exists p :: 0 <= p <= |text| && GreedyMatchAt(text, p).Some?
    ensures r.Some? ==> r.value.marketType == "over_under" && r.value.line.Some?
    ensures r.Some? ==> r.value.selection == "over" || r.value.selection == "under"
  {
    match SearchFrom(text, 0)
    case Some(m) =>
      MatchAtIsGreedy(text, m.start);
      Some(MarketOfMatch(text, m))
    case None =>
      assert forall p :: 0 <= p <= |text| ==> GreedyMatchAt(text, p).None? by {
        forall p | 0 <= p <= |text| {
          MatchAtIsGreedy(text, p);
        }
      }
      None
  }

  /** `p` is the first position where the pattern matches. */
  predicate LeftmostAt(text: string, p: nat) {
    && p <= |text|
    && GreedyMatchAt(text, p).Some?
    && forall k :: 0 <= k < p ==> GreedyMatchAt(text, k).None?
  }

  /** Read against the greedy pattern alone: the market comes from the match
      at the first position where the pattern matches, whatever the search
      looked like. */
  lemma ParseOverUnderLeftmost(text: string, p: nat)
    requires LeftmostAt(text, p)
    ensures ParseOverUnder(text) == Some(MarketOfMatch(text, GreedyMatchAt(text, p).value))
  {
    var r := SearchFrom(text, 0);
    MatchAtIsGreedy(text, p);
    assert r.Some?;
    var m := r.value;
    MatchAtIsGreedy(text, m.start);
    assert m.start == p;
  }

  /** A market comes back exactly when there is a first matching position,
      and it is that position's match. */
  lemma ParseOverUnderHasLeftmost(text: string)
    ensures ParseOverUnder(text).Some? <==> exists p :: LeftmostAt(text, p)
    ensures forall p :: LeftmostAt(text, p) ==>
      ParseOverUnder(text) == Some(MarketOfMatch(text, GreedyMatchAt(text, p).value))
  {
    forall p | LeftmostAt(text, p)
      ensures ParseOverUnder(text) == Some(MarketOfMatch(text, GreedyMatchAt(text, p).value))
    {
      ParseOverUnderLeftmost(text, p);
    }
    var r := SearchFrom(text, 0);
    if r.Some? {
      var m := r.value;
      MatchAtIsGreedy(text, m.start);
      forall k | 0 <= k < m.start
        ensures GreedyMatchAt(text, k).None?
      {
        MatchAtIsGreedy(text, k);
      }
      assert LeftmostAt(text, m.start);
    }
  }

  const DrawAliases: seq<string> := ["draw", "x"]
  const HomeAliases: seq<string> := ["home win", "home", "1"]
  const AwayAliases: seq<string> := ["away win", "away", "2"]
  const BttsYesAliases: seq<string> := ["btts", "both teams to score", "btts yes", "gg"]
  const BttsNoAliases: seq<string> := ["btts no", "both teams not to score", "ng"]

  predicate IsAlias(value: string) {
    value in DrawAliases || value in HomeAliases || value in AwayAliases
    || value in BttsYesAliases || value in BttsNoAliases
  }

  /** `parseBetTypeToMarket`: the trimmed, lower-cased text is tried against the
      over/under pattern, then against the exact alias lists; anything else is a
      custom market whose selection is the trimmed text with its casing kept.
      It never fails. */
  function ParseBetTypeToMarket(raw: string): (r: ParsedMarket)
    ensures r.line.Some? <==> r.marketType == "over_under"
    ensures r.marketType in {"over_under", "1x2", "btts", "custom"}
    ensures ParseOverUnder(Lower(Trim(raw))).Some? ==> r == ParseOverUnder(Lower(Trim(raw))).value
    ensures r.marketType == "custom" <==> ParseOverUnder(Lower(Trim(raw))).None? && !IsAlias(Lower(Trim(raw)))
    ensures r.marketType == "custom" ==> r.selection == Trim(raw)
  {
    var value := Lower(Trim(raw));
    var ou := ParseOverUnder(value);
    if ou.Some? then ou.value
    else if value in DrawAliases then ParsedMarket("1x2", "draw", None)
    else if value in HomeAliases then ParsedMarket("1x2", "home", None)
    else if value in AwayAliases then ParsedMarket("1x2", "away", None)
    else if value in BttsYesAliases then ParsedMarket("btts", "yes", None)
    else if value in BttsNoAliases then ParsedMarket("btts", "no", None)
    else ParsedMarket("custom", Trim(raw), None)
  }

  /** Text without a digit has no over/under match: the pattern needs a number. */
  lemma NoDigitNoOverUnder(text: string)
    requires forall i :: 0 <= i < |text| ==> !IsDigit(text[i])
    ensures ParseOverUnder(text).None?
  {
  }

  /** Text shorter than "over" has no over/under match. */
  lemma ShortNoOverUnder(text: string)
    requires |text| < 4
    ensures ParseOverUnder(text).None?
  {
  }

  /** None of the aliases contains an over/under match. */
  lemma AliasesHaveNoOverUnder(value: string)
    requires IsAlias(value)
    ensures ParseOverUnder(value).None?
  {
    if |value| < 4 {
      ShortNoOverUnder(value);
    } else {
      NoDigitNoOverUnder(value);
    }
  }

  /** The alias table: each alias, once trimmed and lower-cased, maps to its
      market and selection with no line. */
  lemma AliasTable(raw: string)
    ensures Lower(Trim(raw)) in DrawAliases ==> ParseBetTypeToMarket(raw) == ParsedMarket("1x2", "draw", None)
    ensures Lower(Trim(raw)) in HomeAliases ==> ParseBetTypeToMarket(raw) == ParsedMarket("1x2", "home", None)
    ensures Lower(Trim(raw)) in AwayAliases ==> ParseBetTypeToMarket(raw) == ParsedMarket("1x2", "away", None)
    ensures Lower(Trim(raw)) in BttsYesAliases ==> ParseBetTypeToMarket(raw) == ParsedMarket("btts", "yes", None)
    ensures Lower(Trim(raw)) in BttsNoAliases ==> ParseBetTypeToMarket(raw) == ParsedMarket("btts", "no", None)
  {
    var value := Lower(Trim(raw));
    if IsAlias(value) {
      AliasesHaveNoOverUnder(value);
      AliasTablesDisjoint(value);
    }
  }

  /** No alias sits in two tables, so the order they are tried in does not
      matter. */
  lemma AliasTablesDisjoint(value: string)
    ensures value in HomeAliases ==> value !in DrawAliases
    ensures value in AwayAliases ==> value !in DrawAliases && value !in HomeAliases
    ensures value in BttsYesAliases ==> value !in DrawAliases && value !in HomeAliases && value !in AwayAliases
    ensures value in BttsNoAliases ==>
      value !in DrawAliases && value !in HomeAliases && value !in AwayAliases && value !in BttsYesAliases
  {
  }

  /** Only the trimmed, lower-cased text decides the market; the original
      casing survives only in a custom selection. */
  lemma ParseIgnoresCaseAndPadding(a: string, b: string)
    requires Lower(Trim(a)) == Lower(Trim(b))
    ensures ParseBetTypeToMarket(a).marketType == ParseBetTypeToMarket(b).marketType
    ensures ParseBetTypeToMarket(a).line == ParseBetTypeToMarket(b).line
    ensures ParseBetTypeToMarket(a).marketType != "custom" ==> ParseBetTypeToMarket(a) == ParseBetTypeToMarket(b)
  {
    assert ParseOverUnder(Lower(Trim(a))) == ParseOverUnder(Lower(Trim(b)));
  }

  lemma OverTwoPointFiveX()
    ensures GreedyMatchAt("over 2.5x", 0) == Some(OverUnderMatch("over", 0, 5, 6, 6))
  {
    var v := "over 2.5x";
    assert SpaceRunEnd(v, 4) == 5;
    assert DigitRunEnd(v, 5) == 6;
    assert DigitRunEnd(v, 7) == 8;
  }

  lemma OverTwoPointFiveXParsed()
    ensures ParseOverUnder("over 2.5x") == Some(ParsedMarket("over_under", "over", Some(2.0)))
  {
    var v := "over 2.5x";
    OverTwoPointFiveX();
    MatchAtIsGreedy(v, 0);
    assert SearchFrom(v, 0) == Some(OverUnderMatch("over", 0, 5, 6, 6));
    assert v[5..6] == "2";
    assert NatValue("2") == 2;
  }

  /** "over 2.5x": the fraction cannot end the match (a letter follows it),
      so backtracking drops it and the line is 2. */
  lemma FractionGivenBack()
    ensures ParseBetTypeToMarket("over 2.5x") == ParsedMarket("over_under", "over", Some(2.0))
  {
    PlainText("over 2.5x");
    OverTwoPointFiveXParsed();
  }

  lemma OverTwentyFiveX()
    ensures forall p :: 0 <= p <= 8 ==> GreedyMatchAt("over 25x", p).None?
  {
    var v := "over 25x";
    assert SpaceRunEnd(v, 4) == 5;
    assert DigitRunEnd(v, 5) == 7;
    assert GreedyMatchAt(v, 0).None?;
    forall p | 1 <= p <= |v|
      ensures GreedyMatchAt(v, p).None?
    {
      if p + 4 <= |v| {
        assert LowerChar(v[p + 0]) != 'o' && LowerChar(v[p + 0]) != 'u';
      }
    }
  }

  /** "over 25x", in any casing and padding: no word boundary follows the
      number, so there is no over/under match and the text is a custom
      market. */
  lemma NoBoundaryNoMatch(raw: string)
    requires Lower(Trim(raw)) == "over 25x"
    ensures ParseBetTypeToMarket(raw) == ParsedMarket("custom", Trim(raw), None)
  {
    OverTwentyFiveXNoMarket();
    assert !IsAlias("over 25x");
    CustomMarket(raw);
  }

  lemma OverTwentyFiveXNoMarket()
    ensures ParseOverUnder("over 25x").None?
  {
    OverTwentyFiveX();
  }

  /** Text that is neither an over/under bet nor an alias is a custom market. */
  lemma CustomMarket(raw: string)
    requires ParseOverUnder(Lower(Trim(raw))).None? && !IsAlias(Lower(Trim(raw)))
    ensures ParseBetTypeToMarket(raw) == ParsedMarket("custom", Trim(raw), None)
  {
  }

  lemma OverTwoPointFive()
    ensures GreedyMatchAt("over 2.5", 0) == Some(OverUnderMatch("over", 0, 5, 6, 8))
  {
    var v := "over 2.5";
    assert SpaceRunEnd(v, 4) == 5;
    assert DigitRunEnd(v, 5) == 6;
    assert DigitRunEnd(v, 7) == 8;
  }

  lemma OverTwoPointFiveParsed()
    ensures ParseOverUnder("over 2.5") == Some(ParsedMarket("over_under", "over", Some(2.5)))
  {
    var v := "over 2.5";
    var m := OverUnderMatch("over", 0, 5, 6, 8);
    OverTwoPointFive();
    ParseOverUnderLeftmost(v, 0);
    OverTwoPointFiveLine(v, m);
  }

  lemma OverTwoPointFiveLine(v: string, m: OverUnderMatch)
    requires v == "over 2.5" && m == OverUnderMatch("over", 0, 5, 6, 8)
    requires WellFormedMatch(v, m)
    ensures MatchedLine(v, m) == 2.5
  {
    assert v[5..6] == "2" && v[7..8] == "5";
    assert NatValue("2") == 2 && NatValue("5") == 5;
  }

  lemma ShoutedOverTwoPointFive()
    ensures Lower(Trim("  OVER 2.5 ")) == "over 2.5"
  {
    ShoutedTrim();
    ShoutedLower();
  }

  lemma ShoutedTrim()
    ensures Trim("  OVER 2.5 ") == "OVER 2.5"
  {
    TrimPadding("  ", "OVER 2.5", " ");
    assert "  " + "OVER 2.5" + " " == "  OVER 2.5 ";
  }

  lemma ShoutedLower()
    ensures Lower("OVER 2.5") == "over 2.5"
  {
    var v := "OVER 2.5";
    assert forall i :: 0 <= i < |v| ==> Lower(v)[i] == "over 2.5"[i];
  }

  /** Surrounding whitespace and letter case do not matter. */
  lemma CaseAndPaddingExample()
    ensures ParseBetTypeToMarket("  OVER 2.5 ") == ParsedMarket("over_under", "over", Some(2.5))
    ensures ParseBetTypeToMarket("over 2.5") == ParsedMarket("over_under", "over", Some(2.5))
  {
    var v := "over 2.5";
    PlainText(v);
    ShoutedOverTwoPointFive();
    OverTwoPointFiveParsed();
  }

  lemma PaddedDraw()
    ensures Lower(Trim(" Draw")) == "draw"
  {
    TrimPadding(" ", "Draw", "");
    assert " " + "Draw" + "" == " Draw";
    assert Lower("Draw") == "draw";
  }

  /** Aliases must match the whole text: "home team" is not "home". */
  lemma WholeTextAliases()
    ensures ParseBetTypeToMarket("home team") == ParsedMarket("custom", "home team", None)
  {
    HomeTeamPlain();
    HomeTeamNoOverUnder();
    assert !IsAlias("home team");
  }

  lemma HomeTeamPlain()
    ensures Lower(Trim("home team")) == "home team"
  {
    PlainText("home team");
  }

  lemma HomeTeamNoOverUnder()
    ensures ParseOverUnder("home team").None?
  {
    NoDigitNoOverUnder("home team");
  }

  /** A padded, capitalised alias still selects its market. */
  lemma PaddedAlias()
    ensures ParseBetTypeToMarket(" Draw") == ParsedMarket("1x2", "draw", None)
  {
    PaddedDraw();
    AliasTable(" Draw");
  }
}
