/**
 * Keyword matching and lead-quality scoring (app.py `kw_hit`, `analyze_lead_quality`).
 * The scorer is written once over two ordered signal tables; the bot and the web console
 * each pass their own tables.
 */
module Scoring {
  import opened Text

  /** One row of a signal table: the phrase looked for, the points it adds, the reason shown. */
  datatype Signal = Signal(phrase: string, points: int, reason: string)

  /** The bot's positive signals, in table order. */
  const PositiveSignals: seq<Signal> := [
    Signal("бюджет", 3, "💰 Упоминает бюджет"),
    Signal("готов платить", 3, "💰 Готов платить"),
    Signal("плачу", 3, "💰 Готов платить"),
    Signal("оплачу", 3, "💰 Готов платить"),
    Signal("срочно", 2, "⚡ Срочная потребность"),
    Signal("deadline", 2, "📅 Есть дедлайн"),
    Signal("дедлайн", 2, "📅 Есть дедлайн"),
    Signal("опытного", 2, "⭐ Ищет опытного специалиста"),
    Signal("портфолио", 2, "📁 Интересует портфолио"),
    Signal("примеры работ", 2, "📁 Хочет видеть примеры"),
    Signal("техническое задание", 2, "📋 Есть ТЗ"),
    Signal("тз", 1, "📋 Есть ТЗ"),
    Signal("профессионал", 2, "⭐ Ищет профессионала"),
    Signal("качественно", 1, "✨ Важно качество"),
    Signal("быстро", 1, "⚡ Нужно быстро")
  ]

  /** The bot's negative signals, in table order. */
  const NegativeSignals: seq<Signal> := [
    Signal("бесплатно", -5, "🚫 Ищет бесплатно"),
    Signal("даром", -5, "🚫 Ищет даром"),
    Signal("без оплаты", -5, "🚫 Без оплаты"),
    Signal("взаимозачет", -3, "🤝 Взаимозачет"),
    Signal("процент", -2, "📈 Процент от прибыли"),
    Signal("стажер", -2, "👶 Ищет стажера"),
    Signal("новичок", -1, "👶 Ищет новичка"),
    Signal("дешево", -2, "💸 Ищет дешево"),
    Signal("недорого", -1, "💸 Ищет недорого")
  ]

  // ------------------------------------------------------------------
  // Tiers
  // ------------------------------------------------------------------

  datatype Tier = Hot | Good | Normal | LowQuality

  /** The score ladder: 5 and up is hot, 2..4 good, 0..1 normal, negative low quality. */
  function TierOf(score: int): (t: Tier)
    ensures t == Hot <==> score >= 5
    ensures t == Good <==> 2 <= score < 5
    ensures t == Normal <==> 0 <= score < 2
    ensures t == LowQuality <==> score < 0
  {
    if score >= 5 then Hot
    else if score >= 2 then Good
    else if score >= 0 then Normal
    else LowQuality
  }

  /** The label text shown on cards and used to pick reply templates. */
  function TierLabel(t: Tier): string {
    match t
    case Hot => "🔥 ГОРЯЧИЙ ЛИД"
    case Good => "🟡 ХОРОШИЙ ЛИД"
    case Normal => "🟢 ОБЫЧНЫЙ ЛИД"
    case LowQuality => "🔴 НИЗКОЕ КАЧЕСТВО"
  }

  /** The four labels are distinct, so a label determines its tier. */
  lemma TierLabelInjective(t: Tier, u: Tier)
    ensures TierLabel(t) == TierLabel(u) <==> t == u
  {
    if t != u {
      assert TierLabel(t)[2] != TierLabel(u)[2] || TierLabel(t)[3] != TierLabel(u)[3];
    }
  }

  // ------------------------------------------------------------------
  // Specification of the scorer
  // ------------------------------------------------------------------

  /** The rows of `table` whose phrase occurs in `lowered`, in table order. */
  function Fired(table: seq<Signal>, lowered: string): (r: seq<Signal>)
    ensures |r| <= |table|
    decreases |table|
  {
    if table == [] then []
    else
      var last := table[|table| - 1];
      Fired(table[..|table| - 1], lowered) + (if Contains(lowered, last.phrase) then [last] else [])
  }

  function SumPoints(sigs: seq<Signal>): int
    decreases |sigs|
  {
    if sigs == [] then 0 else SumPoints(sigs[..|sigs| - 1]) + sigs[|sigs| - 1].points
  }

  lemma SumPointsSnoc(sigs: seq<Signal>, x: Signal)
    ensures SumPoints(sigs + [x]) == SumPoints(sigs) + x.points
  {
    assert (sigs + [x])[..|sigs|] == sigs;
  }

  function ReasonsOf(sigs: seq<Signal>): (r: seq<string>)
    ensures |r| == |sigs|
    ensures forall k :: 0 <= k < |sigs| ==> r[k] == sigs[k].reason
    decreases |sigs|
  {
    if sigs == [] then [] else ReasonsOf(sigs[..|sigs| - 1]) + [sigs[|sigs| - 1].reason]
  }

  /** Sum of the positive weights of a table: the most it can add. */
  function MaxGain(table: seq<Signal>): int
    decreases |table|
  {
    if table == [] then 0
    else MaxGain(table[..|table| - 1]) + (if table[|table| - 1].points > 0 then table[|table| - 1].points else 0)
  }

  /** Sum of the negative weights of a table: the most it can take away. */
  function MaxLoss(table: seq<Signal>): int
    decreases |table|
  {
    if table == [] then 0
    else MaxLoss(table[..|table| - 1]) + (if table[|table| - 1].points < 0 then table[|table| - 1].points else 0)
  }

  /** What a scorer returns: the score, its tier label and the matched reasons. */
  datatype Analysis = Analysis(score: int, quality: string, reasons: seq<string>)

  /** The analysis as a value: every row of both tables checked once against the lower-cased text. */
  function Analyzed(positive: seq<Signal>, negative: seq<Signal>, text: string): Analysis {
    var low := Lower(text);
    var score := SumPoints(Fired(positive, low)) + SumPoints(Fired(negative, low));
    Analysis(score, TierLabel(TierOf(score)), ReasonsOf(Fired(positive, low)) + ReasonsOf(Fired(negative, low)))
  }

  // ------------------------------------------------------------------
  // The scorer
  // ------------------------------------------------------------------

  /** One more row of the table is checked: its points and reason are added iff it fires. */
  lemma FiredStep(table: seq<Signal>, lowered: string, i: nat)
    requires i < |table|
    ensures SumPoints(Fired(table[..i + 1], lowered))
         == SumPoints(Fired(table[..i], lowered)) + (if Contains(lowered, table[i].phrase) then table[i].points else 0)
    ensures ReasonsOf(Fired(table[..i + 1], lowered))
         == ReasonsOf(Fired(table[..i], lowered)) + (if Contains(lowered, table[i].phrase) then [table[i].reason] else [])
  {
    var f := Fired(table[..i], lowered);
    assert table[..i + 1][..i] == table[..i];
    if Contains(lowered, table[i].phrase) {
      assert Fired(table[..i + 1], lowered) == f + [table[i]];
      SumPointsSnoc(f, table[i]);
    } else {
      assert Fired(table[..i + 1], lowered) == f + [];
      assert f + [] == f;
    }
  }

  /**
   * One scoring loop: adds the points of every row of `table` whose phrase occurs in
   * `textLower` to `score0`, appending its reason to `reasons0`.
   */
  method AddSignals(table: seq<Signal>, textLower: string, score0: int, reasons0: seq<string>)
    returns (score: int, reasons: seq<string>)
    ensures score == score0 + SumPoints(Fired(table, textLower))
    ensures reasons == reasons0 + ReasonsOf(Fired(table, textLower))
  {
    score, reasons := score0, reasons0;
    for i := 0 to |table|
      invariant score == score0 + SumPoints(Fired(table[..i], textLower))
      invariant reasons == reasons0 + ReasonsOf(Fired(table[..i], textLower))
    {
      FiredStep(table, textLower, i);
      var fires := Contains(textLower, table[i].phrase);
      score := score + (if fires then table[i].points else 0);
      var added := if fires then [table[i].reason] else [];
      assert reasons + added == reasons0 + (ReasonsOf(Fired(table[..i], textLower)) + added);
      reasons := reasons + added;
    }
    assert table[..|table|] == table;
  }

  /** Scores the positive rows, then the negative rows, and labels the total. */
  method Analyze(positive: seq<Signal>, negative: seq<Signal>, text: string) returns (a: Analysis)
    ensures a == Analyzed(positive, negative, text)
    ensures |a.reasons| == |Fired(positive, Lower(text))| + |Fired(negative, Lower(text))|
  {
    var textLower := Lower(text);
    var score, reasons := AddSignals(positive, textLower, 0, []);
    score, reasons := AddSignals(negative, textLower, score, reasons);
    a := Analysis(score, TierLabel(TierOf(score)), reasons);
  }

  /** The bot's scorer. */
  method AnalyzeLeadQuality(text: string) returns (a: Analysis)
    ensures a == Analyzed(PositiveSignals, NegativeSignals, text)
  {
    a := Analyze(PositiveSignals, NegativeSignals, text);
  }

  // ------------------------------------------------------------------
  // Laws of the scorer
  // ------------------------------------------------------------------

  /** A fired subset of a table scores between its total loss and its total gain. */
  lemma {:induction false} FiredBounds(table: seq<Signal>, lowered: string)
    ensures MaxLoss(table) <= SumPoints(Fired(table, lowered)) <= MaxGain(table)
    decreases |table|
  {
    if table != [] {
      var init := table[..|table| - 1];
      var last := table[|table| - 1];
      FiredBounds(init, lowered);
      var f := Fired(init, lowered);
      FiredStep(table, lowered, |table| - 1);
      assert table[..|table|] == table;
    }
  }

  /** Every score lies between the sum of all negative and the sum of all positive weights. */
  lemma AnalysisBounds(positive: seq<Signal>, negative: seq<Signal>, text: string)
    ensures MaxLoss(positive) + MaxLoss(negative) <= Analyzed(positive, negative, text).score
    ensures Analyzed(positive, negative, text).score <= MaxGain(positive) + MaxGain(negative)
  {
    FiredBounds(positive, Lower(text));
    FiredBounds(negative, Lower(text));
  }

  lemma MaxStep(table: seq<Signal>, i: nat)
    requires i < |table|
    ensures MaxGain(table[..i + 1]) == MaxGain(table[..i]) + (if table[i].points > 0 then table[i].points else 0)
    ensures MaxLoss(table[..i + 1]) == MaxLoss(table[..i]) + (if table[i].points < 0 then table[i].points else 0)
  {
    assert table[..i + 1][..i] == table[..i];
  }

  /** The bot's tables: positives add up to 31, negatives to -26. */
  lemma BotTableTotals()
    ensures MaxGain(PositiveSignals) == 31 && MaxLoss(PositiveSignals) == 0
    ensures MaxGain(NegativeSignals) == 0 && MaxLoss(NegativeSignals) == -26
  {
    PositiveTotals();
    NegativeTotals();
  }

  /** The gain and the loss of the rows of `table` from index `i` on, summed front to back. */
  function ExtremesFrom(table: seq<Signal>, i: nat): (int, int)
    decreases |table| - i
  {
    if i >= |table| then (0, 0)
    else
      var rest := ExtremesFrom(table, i + 1);
      var p := table[i].points;
      ((if p > 0 then p else 0) + rest.0, (if p < 0 then p else 0) + rest.1)
  }

  /** Summing front to back gives the same totals as `MaxGain` and `MaxLoss`. */
  lemma {:induction false} ExtremesFromSplit(table: seq<Signal>, i: nat)
    requires i <= |table|
    ensures MaxGain(table) == MaxGain(table[..i]) + ExtremesFrom(table, i).0
    ensures MaxLoss(table) == MaxLoss(table[..i]) + ExtremesFrom(table, i).1
    decreases |table| - i
  {
    if i == |table| {
      assert table[..i] == table;
    } else {
      ExtremesFromSplit(table, i + 1);
      MaxStep(table, i);
    }
  }

  lemma PositiveTotals()
    ensures MaxGain(PositiveSignals) == 31 && MaxLoss(PositiveSignals) == 0
  {
    ExtremesFromSplit(PositiveSignals, 0);
    assert ExtremesFrom(PositiveSignals, 0) == (31, 0);
  }

  lemma NegativeTotals()
    ensures MaxGain(NegativeSignals) == 0 && MaxLoss(NegativeSignals) == -26
  {
    ExtremesFromSplit(NegativeSignals, 0);
    assert ExtremesFrom(NegativeSignals, 0) == (0, -26);
  }

  /** The bot's score always lies in [-26, 31]. */
  lemma LeadScoreBounds(text: string)
    ensures -26 <= Analyzed(PositiveSignals, NegativeSignals, text).score <= 31
  {
    AnalysisBounds(PositiveSignals, NegativeSignals, text);
    BotTableTotals();
  }

  /** Every fired row is a row of the table whose phrase occurs in the text. */
  lemma {:induction false} FiredSound(table: seq<Signal>, lowered: string, x: Signal)
    requires x in Fired(table, lowered)
    ensures x in table && Contains(lowered, x.phrase)
    decreases |table|
  {
    var init := table[..|table| - 1];
    var last := table[|table| - 1];
    if x in Fired(init, lowered) {
      FiredSound(init, lowered, x);
    } else {
      assert x == last;
    }
  }

  /** A row is among the fired rows exactly when its phrase occurs in the text. */
  lemma {:induction false} FiredIff(table: seq<Signal>, lowered: string, k: nat)
    requires k < |table|
    ensures Contains(lowered, table[k].phrase) <==> table[k] in Fired(table, lowered)
    decreases |table|
  {
    var init := table[..|table| - 1];
    if table[k] in Fired(table, lowered) {
      FiredSound(table, lowered, table[k]);
    }
    if k < |table| - 1 {
      FiredIff(init, lowered, k);
      assert init[k] == table[k];
    }
  }

  /**
   * "оплачу" contains "плачу", so a text mentioning "оплачу" scores both rows: six points
   * and the reason "💰 Готов платить" at least twice.
   */
  lemma {:induction false} OplachuCountsTwice(text: string)
    requires Contains(Lower(text), "оплачу")
    ensures Signal("плачу", 3, "💰 Готов платить") in Fired(PositiveSignals, Lower(text))
    ensures Signal("оплачу", 3, "💰 Готов платить") in Fired(PositiveSignals, Lower(text))
    ensures multiset(Analyzed(PositiveSignals, NegativeSignals, text).reasons)["💰 Готов платить"] >= 2
  {
    var low := Lower(text);
    assert "оплачу"[1..] == "плачу";
    ContainsAt("оплачу", "плачу", 1);
    ContainsTransitive(low, "оплачу", "плачу");
    FiredIff(PositiveSignals, low, 2);
    FiredIff(PositiveSignals, low, 3);
    var f := Fired(PositiveSignals, low);
    var i :| 0 <= i < |f| && f[i] == PositiveSignals[2];
    var j :| 0 <= j < |f| && f[j] == PositiveSignals[3];
    var rs := ReasonsOf(f) + ReasonsOf(Fired(NegativeSignals, low));
    assert i != j;
    assert rs[i] == "💰 Готов платить" && rs[j] == "💰 Готов платить";
    MultisetCountTwo(rs, i, j);
  }

  lemma MultisetCountTwo<T>(s: seq<T>, i: nat, j: nat)
    requires i < |s| && j < |s| && i != j && s[i] == s[j]
    ensures multiset(s)[s[i]] >= 2
  {
    var lo, hi := if i < j then i else j, if i < j then j else i;
    assert s == s[..hi] + s[hi..];
    assert s[..hi] == s[..lo] + s[lo..hi];
    assert s[lo..hi][0] == s[lo];
    assert s[hi..][0] == s[hi];
  }

  // ------------------------------------------------------------------
  // Keyword match
  // ------------------------------------------------------------------

  /** Some stored phrase occurs in the lower-cased text. */
  predicate KeywordMatch(keywords: seq<string>, text: string) {
    exists i :: 0 <= i < |keywords| && Contains(Lower(text), keywords[i])
  }

  /**
   * The bot's keyword filter: false when there are no active keywords,
   * otherwise true iff some phrase is a substring of the lower-cased text.
   */
  method KwHit(keywords: seq<string>, text: string) returns (hit: bool)
    ensures keywords == [] ==> !hit
    ensures hit <==> KeywordMatch(keywords, text)
  {
    if keywords == [] {
      return false;
    }
    var textLower := Lower(text);
    for i := 0 to |keywords|
      invariant forall j :: 0 <= j < i ==> !Contains(textLower, keywords[j])
    {
      if Contains(textLower, keywords[i]) {
        return true;
      }
    }
    return false;
  }

  /** A match means the phrase occurs at a position of the lower-cased text. */
  lemma KeywordMatchAt(keywords: seq<string>, text: string)
    ensures KeywordMatch(keywords, text)
        <==> exists i, p :: 0 <= i < |keywords| && OccursAt(Lower(text), keywords[i], p)
  {
    if KeywordMatch(keywords, text) {
      var i :| 0 <= i < |keywords| && Contains(Lower(text), keywords[i]);
      ContainsIff(Lower(text), keywords[i]);
    }
    if exists i, p :: 0 <= i < |keywords| && OccursAt(Lower(text), keywords[i], p) {
      var i, p :| 0 <= i < |keywords| && OccursAt(Lower(text), keywords[i], p);
      ContainsIff(Lower(text), keywords[i]);
    }
  }

  /** Matching ignores case: a text and its lower-cased form match the same keywords. */
  lemma KeywordMatchLower(keywords: seq<string>, text: string)
    ensures KeywordMatch(keywords, Lower(text)) == KeywordMatch(keywords, text)
  {
    LowerIdempotent(text);
  }
}
