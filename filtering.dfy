/**
 * The relevance scorer and filter. The content of an item is its title, a
 * space and its body, lower-cased. Every keyword that occurs in the content
 * adds its weight once, every bonus pattern that matches adds its bonus, and
 * the total is multiplied by the weight of the item's source (looked up on
 * the lower-cased source name, 1.0 when unlisted). An item is relevant when
 * its score reaches the threshold, 2.0 unless the caller gives another.
 */
module Filtering {
  import opened Text
  import opened Models
  import opened Patterns
  import opened Wrappers

  /** The scoring tables: keyword weights, pattern bonuses and source weights. */
  datatype Config = Config(
    keywordScores: seq<(string, real)>,
    patternBonuses: seq<(Pattern, real)>,
    sourceWeights: map<string, real>)

  const DefaultKeywordScores: seq<(string, real)> := [
    ("ransomware", 5.0),
    ("breach", 4.0),
    ("CVE", 3.0),
    ("critical vulnerability", 5.0),
    ("exploit", 3.0),
    ("ddos", 4.0),
    ("leak", 3.0),
    ("zero-day", 5.0),
    ("patch", 2.0),
    ("mitigation", 2.0),
    ("outage", 3.0)
  ]

  const DefaultPatternBonuses: seq<(Pattern, real)> := [
    (CveId, 3.0),
    (WordsInLine("AWS", "outage"), 2.0),
    (WordsInLine("Google", "breach"), 2.0),
    (WordsSpaced("exploit", "released"), 3.0)
  ]

  const DefaultSourceWeights: map<string, real> := map[
    "reddit" := 1.0,
    "arstechnica" := 1.2,
    "tomshardware" := 1.1,
    "mock" := 1.0
  ]

  /** The tables the application scores with. */
  const DefaultConfig: Config := Config(DefaultKeywordScores, DefaultPatternBonuses, DefaultSourceWeights)

  /** The default relevance threshold of `is_relevant`. */
  const DefaultThreshold: real := 2.0

  /** `f"{item.title} {item.body or ''}".lower()` */
  function Content(item: NewsItem): string {
    Lower(item.title + " " + BodyText(item))
  }

  /** The sum of the weights of the keywords that occur in `content`. */
  function KeywordSum(table: seq<(string, real)>, content: string): real {
    if table == [] then 0.0
    else
      var last := table[|table| - 1];
      KeywordSum(table[..|table| - 1], content) + (if Contains(content, last.0) then last.1 else 0.0)
  }

  /** The sum of the bonuses of the patterns that match `content`. */
  function PatternSum(table: seq<(Pattern, real)>, content: string): real {
    if table == [] then 0.0
    else
      var last := table[|table| - 1];
      PatternSum(table[..|table| - 1], content) + (if Search(last.0, content) then last.1 else 0.0)
  }

  /** `SOURCE_WEIGHTS.get(source.lower(), 1.0)` */
  function SourceWeight(cfg: Config, source: string): real {
    var key := Lower(source);
    if key in cfg.sourceWeights then cfg.sourceWeights[key] else 1.0
  }

  /** The keyword weights plus the pattern bonuses, before the source weight. */
  function BaseScore(item: NewsItem, cfg: Config): real {
    KeywordSum(cfg.keywordScores, Content(item)) + PatternSum(cfg.patternBonuses, Content(item))
  }

  /** The relevance score `compute_relevance_score` returns. */
  function Score(item: NewsItem, cfg: Config): real {
    BaseScore(item, cfg) * SourceWeight(cfg, item.source)
  }

  /** `compute_relevance_score`: accumulates keyword weights and pattern bonuses, then scales. */
  method ComputeRelevanceScore(item: NewsItem, cfg: Config) returns (score: real)
    ensures score == Score(item, cfg)
  {
    var content := Lower(item.title + " " + BodyText(item));
    var base := AddKeywordWeights(cfg.keywordScores, content);
    var bonuses := AddPatternBonuses(cfg.patternBonuses, content);
    base := base + bonuses;
    var key := Lower(item.source);
    var sourceWeight := if key in cfg.sourceWeights then cfg.sourceWeights[key] else 1.0;
    score := base * sourceWeight;
    ScoreFromParts(item, cfg, base, sourceWeight);
  }

  /** The score is the product of its two parts, whatever names they go by. */
  lemma ScoreFromParts(item: NewsItem, cfg: Config, base: real, weight: real)
    requires base == BaseScore(item, cfg) && weight == SourceWeight(cfg, item.source)
    ensures Score(item, cfg) == base * weight
  {
  }

  /** The first loop of `compute_relevance_score`: each keyword found in the content adds its weight. */
  method AddKeywordWeights(keywords: seq<(string, real)>, content: string) returns (base: real)
    ensures base == KeywordSum(keywords, content)
  {
    base := 0.0;
    for i := 0 to |keywords|
      invariant base == KeywordSum(keywords[..i], content)
    {
      var (keyword, weight) := keywords[i];
      if Contains(content, keyword) {
        base := base + weight;
      }
      assert keywords[..i + 1][..i] == keywords[..i];
    }
    assert keywords[..|keywords|] == keywords;
  }

  /** The second loop of `compute_relevance_score`: each pattern that matches adds its bonus. */
  method AddPatternBonuses(patterns: seq<(Pattern, real)>, content: string) returns (bonuses: real)
    ensures bonuses == PatternSum(patterns, content)
  {
    bonuses := 0.0;
    for i := 0 to |patterns|
      invariant bonuses == PatternSum(patterns[..i], content)
    {
      var (pattern, bonus) := patterns[i];
      if Search(pattern, content) {
        bonuses := bonuses + bonus;
      }
      assert patterns[..i + 1][..i] == patterns[..i];
    }
    assert patterns[..|patterns|] == patterns;
  }

  /** `is_relevant`: the score reaches the threshold (inclusive). */
  method IsRelevant(item: NewsItem, cfg: Config, threshold: real := DefaultThreshold) returns (relevant: bool)
    ensures relevant <==> Score(item, cfg) >= threshold
  {
    var score := ComputeRelevanceScore(item, cfg);
    relevant := score >= threshold;
  }

  // ---------------------------------------------------------------------
  // Reference definitions: the keywords that occur and the patterns that match

  /** The entries of `table` whose keyword occurs in `content`, in table order. */
  function MatchedKeywords(table: seq<(string, real)>, content: string): seq<(string, real)> {
    if table == [] then []
    else
      var last := table[|table| - 1];
      MatchedKeywords(table[..|table| - 1], content) + (if Contains(content, last.0) then [last] else [])
  }

  /** The entries of `table` whose pattern matches `content`, in table order. */
  function MatchedPatterns(table: seq<(Pattern, real)>, content: string): seq<(Pattern, real)> {
    if table == [] then []
    else
      var last := table[|table| - 1];
      MatchedPatterns(table[..|table| - 1], content) + (if Search(last.0, content) then [last] else [])
  }

  function Total<T>(entries: seq<(T, real)>): real {
    if entries == [] then 0.0 else entries[0].1 + Total(entries[1..])
  }

  lemma {:induction false} TotalAppend<T>(a: seq<(T, real)>, b: seq<(T, real)>)
    ensures Total(a + b) == Total(a) + Total(b)
  {
    if a == [] {
      assert a + b == b;
    } else {
      assert (a + b)[1..] == a[1..] + b;
      TotalAppend(a[1..], b);
    }
  }

  /**
   * The keyword part of the score is the total weight of the keywords that
   * occur in the content: each such keyword counts exactly once.
   */
  lemma {:induction false} KeywordSumIsMatchedTotal(table: seq<(string, real)>, content: string)
    ensures KeywordSum(table, content) == Total(MatchedKeywords(table, content))
  {
    if table != [] {
      var init, last := table[..|table| - 1], table[|table| - 1];
      KeywordSumIsMatchedTotal(init, content);
      TotalAppend(MatchedKeywords(init, content), if Contains(content, last.0) then [last] else []);
    }
  }

  /** The pattern part of the score is the total bonus of the patterns that match. */
  lemma {:induction false} PatternSumIsMatchedTotal(table: seq<(Pattern, real)>, content: string)
    ensures PatternSum(table, content) == Total(MatchedPatterns(table, content))
  {
    if table != [] {
      var init, last := table[..|table| - 1], table[|table| - 1];
      PatternSumIsMatchedTotal(init, content);
      TotalAppend(MatchedPatterns(init, content), if Search(last.0, content) then [last] else []);
    }
  }

  // ---------------------------------------------------------------------
  // Additivity and independence

  /** Keyword contributions are independent: the sum over two tables is the sum of the sums. */
  lemma {:induction false} KeywordSumAppend(a: seq<(string, real)>, b: seq<(string, real)>, content: string)
    ensures KeywordSum(a + b, content) == KeywordSum(a, content) + KeywordSum(b, content)
  {
    if b != [] {
      assert (a + b)[..|a + b| - 1] == a + b[..|b| - 1];
      assert (a + b)[|a + b| - 1] == b[|b| - 1];
      KeywordSumAppend(a, b[..|b| - 1], content);
    } else {
      assert a + b == a;
    }
  }

  /**
   * The keyword sum depends only on which keywords occur, not on how often
   * or where: two contents with the same matching keywords sum the same.
   */
  lemma {:induction false} KeywordSumDependsOnlyOnMatches(table: seq<(string, real)>, c1: string, c2: string)
    requires forall e :: e in table ==> (Contains(c1, e.0) <==> Contains(c2, e.0))
    ensures KeywordSum(table, c1) == KeywordSum(table, c2)
  {
    if table != [] {
      var init := table[..|table| - 1];
      assert table[|table| - 1] in table;
      assert forall e :: e in init ==> e in table;
      KeywordSumDependsOnlyOnMatches(init, c1, c2);
    }
  }

  /** With non-negative weights, the keyword sum is non-negative. */
  lemma {:induction false} KeywordSumNonNegative(table: seq<(string, real)>, content: string)
    requires forall e :: e in table ==> e.1 >= 0.0
    ensures KeywordSum(table, content) >= 0.0
  {
    if table != [] {
      var init := table[..|table| - 1];
      assert table[|table| - 1] in table;
      assert forall e :: e in init ==> e in table;
      KeywordSumNonNegative(init, content);
    }
  }

  /** With non-negative weights, one occurring keyword already bounds the sum from below. */
  lemma {:induction false} KeywordSumAtLeast(table: seq<(string, real)>, content: string, k: int)
    requires forall e :: e in table ==> e.1 >= 0.0
    requires 0 <= k < |table| && Contains(content, table[k].0)
    ensures KeywordSum(table, content) >= table[k].1
  {
    var init := table[..|table| - 1];
    assert table[|table| - 1] in table;
    assert forall e :: e in init ==> e in table;
    if k == |table| - 1 {
      KeywordSumNonNegative(init, content);
    } else {
      assert init[k] == table[k];
      KeywordSumAtLeast(init, content, k);
    }
  }

  /** With non-negative bonuses, the pattern sum is non-negative. */
  lemma {:induction false} PatternSumNonNegative(table: seq<(Pattern, real)>, content: string)
    requires forall e :: e in table ==> e.1 >= 0.0
    ensures PatternSum(table, content) >= 0.0
  {
    if table != [] {
      var init := table[..|table| - 1];
      assert table[|table| - 1] in table;
      assert forall e :: e in init ==> e in table;
      PatternSumNonNegative(init, content);
    }
  }

  /** When no keyword occurs, the keyword sum is zero. */
  lemma {:induction false} KeywordSumNoneMatch(table: seq<(string, real)>, content: string)
    requires forall e :: e in table ==> !Contains(content, e.0)
    ensures KeywordSum(table, content) == 0.0
  {
    if table != [] {
      var init := table[..|table| - 1];
      assert table[|table| - 1] in table;
      assert forall e :: e in init ==> e in table;
      KeywordSumNoneMatch(init, content);
    }
  }

  /** When no pattern matches, the pattern sum is zero. */
  lemma {:induction false} PatternSumNoneMatch(table: seq<(Pattern, real)>, content: string)
    requires forall e :: e in table ==> !Search(e.0, content)
    ensures PatternSum(table, content) == 0.0
  {
    if table != [] {
      var init := table[..|table| - 1];
      assert table[|table| - 1] in table;
      assert forall e :: e in init ==> e in table;
      PatternSumNoneMatch(init, content);
    }
  }

  /** With non-negative weights, two occurring keywords bound the sum from below by their total. */
  lemma KeywordSumAtLeastPair(table: seq<(string, real)>, content: string, k1: int, k2: int)
    requires forall e :: e in table ==> e.1 >= 0.0
    requires 0 <= k1 < k2 < |table|
    requires Contains(content, table[k1].0) && Contains(content, table[k2].0)
    ensures KeywordSum(table, content) >= table[k1].1 + table[k2].1
  {
    var front, back := table[..k2], table[k2..];
    assert table == front + back;
    assert forall e :: e in front ==> e in table;
    assert forall e :: e in back ==> e in table;
    assert front[k1] == table[k1] && back[0] == table[k2];
    KeywordSumAppend(front, back, content);
    KeywordSumAtLeast(front, content, k1);
    KeywordSumAtLeast(back, content, 0);
  }

  /** An item in which no keyword occurs and no pattern matches scores 0. */
  lemma ScoreZeroWhenNothingMatches(item: NewsItem, cfg: Config)
    requires forall e :: e in cfg.keywordScores ==> !Contains(Content(item), e.0)
    requires forall e :: e in cfg.patternBonuses ==> !Search(e.0, Content(item))
    ensures BaseScore(item, cfg) == 0.0 && Score(item, cfg) == 0.0
  {
    KeywordSumNoneMatch(cfg.keywordScores, Content(item));
    PatternSumNoneMatch(cfg.patternBonuses, Content(item));
  }

  /** With non-negative weights, one occurring keyword bounds the base score from below. */
  lemma BaseScoreAtLeastOne(item: NewsItem, cfg: Config, k: int)
    requires forall e :: e in cfg.keywordScores ==> e.1 >= 0.0
    requires forall e :: e in cfg.patternBonuses ==> e.1 >= 0.0
    requires 0 <= k < |cfg.keywordScores| && Contains(Content(item), cfg.keywordScores[k].0)
    ensures BaseScore(item, cfg) >= cfg.keywordScores[k].1
  {
    KeywordSumAtLeast(cfg.keywordScores, Content(item), k);
    PatternSumNonNegative(cfg.patternBonuses, Content(item));
  }

  /** With non-negative weights, two occurring keywords bound the base score from below. */
  lemma BaseScoreAtLeastPair(item: NewsItem, cfg: Config, k1: int, k2: int)
    requires forall e :: e in cfg.keywordScores ==> e.1 >= 0.0
    requires forall e :: e in cfg.patternBonuses ==> e.1 >= 0.0
    requires 0 <= k1 < k2 < |cfg.keywordScores|
    requires Contains(Content(item), cfg.keywordScores[k1].0) && Contains(Content(item), cfg.keywordScores[k2].0)
    ensures BaseScore(item, cfg) >= cfg.keywordScores[k1].1 + cfg.keywordScores[k2].1
  {
    KeywordSumAtLeastPair(cfg.keywordScores, Content(item), k1, k2);
    PatternSumNonNegative(cfg.patternBonuses, Content(item));
  }

  /** One step of the keyword sum over a table prefix. */
  lemma KeywordSumStep(table: seq<(string, real)>, content: string, i: int)
    requires 0 <= i < |table|
    ensures KeywordSum(table[..i + 1], content)
         == KeywordSum(table[..i], content) + (if Contains(content, table[i].0) then table[i].1 else 0.0)
  {
    assert table[..i + 1][..i] == table[..i];
  }

  /** Patterns match ignoring case, so scoring raw or lower-cased text gives the same bonuses. */
  lemma {:induction false} PatternSumIgnoresCase(table: seq<(Pattern, real)>, s: string)
    ensures PatternSum(table, Lower(s)) == PatternSum(table, s)
  {
    if table != [] {
      SearchIgnoresCase(table[|table| - 1].0, s);
      PatternSumIgnoresCase(table[..|table| - 1], s);
    }
  }

  // ---------------------------------------------------------------------
  // Properties of the score

  /** A keyword holding an upper-case letter (the default table's "CVE") never contributes. */
  lemma UpperKeywordNeverMatches(item: NewsItem, keyword: string, j: int)
    requires 0 <= j < |keyword| && IsUpper(keyword[j])
    ensures !Contains(Content(item), keyword)
  {
    UpperKeyNeverInLowered(item.title + " " + BodyText(item), keyword, j);
  }

  /** The default table scores exactly as it would without its "CVE" entry. */
  lemma CveKeywordIsInert(item: NewsItem)
    ensures KeywordSum(DefaultKeywordScores, Content(item))
         == KeywordSum(DefaultKeywordScores[..2] + DefaultKeywordScores[3..], Content(item))
  {
    var t := DefaultKeywordScores;
    var content := Content(item);
    UpperKeywordNeverMatches(item, "CVE", 0);
    assert t == t[..2] + [t[2]] + t[3..];
    KeywordSumAppend(t[..2] + [t[2]], t[3..], content);
    KeywordSumAppend(t[..2], [t[2]], content);
    KeywordSumAppend(t[..2], t[3..], content);
    assert KeywordSum([t[2]], content) == 0.0 by {
      assert [t[2]][..0] == [];
    }
  }

  /** An item without a body scores as one with an empty body. */
  lemma MissingBodyScoresAsEmpty(item: NewsItem, cfg: Config)
    ensures Score(item.(body := None), cfg) == Score(item.(body := Some("")), cfg)
  {
    assert Content(item.(body := None)) == Content(item.(body := Some("")));
  }

  /** The score ignores any score already stamped on the item. */
  lemma ScoreIgnoresStamp(item: NewsItem, cfg: Config, stamp: Option<real>)
    ensures Score(item.(relevanceScore := stamp), cfg) == Score(item, cfg)
  {
    var stamped := item.(relevanceScore := stamp);
    assert Content(stamped) == Content(item);
    assert BaseScore(stamped, cfg) == BaseScore(item, cfg);
    assert SourceWeight(cfg, stamped.source) == SourceWeight(cfg, item.source);
  }

  /** The source weight is looked up case-insensitively. */
  lemma SourceWeightIgnoresCase(cfg: Config, a: string, b: string)
    requires Lower(a) == Lower(b)
    ensures SourceWeight(cfg, a) == SourceWeight(cfg, b)
    ensures SourceWeight(cfg, a) == SourceWeight(cfg, Lower(a))
  {
    LowerIdempotent(a);
  }

  /** The default source weights: the four listed sources, and 1.0 for every other one. */
  lemma DefaultSourceWeightsLookup(source: string)
    ensures Lower(source) == "arstechnica" ==> SourceWeight(DefaultConfig, source) == 1.2
    ensures Lower(source) == "tomshardware" ==> SourceWeight(DefaultConfig, source) == 1.1
    ensures Lower(source) in {"reddit", "mock"} ==> SourceWeight(DefaultConfig, source) == 1.0
    ensures Lower(source) !in DefaultSourceWeights ==> SourceWeight(DefaultConfig, source) == 1.0
  {
  }

  /** Adds a keyword not yet in the table, as a new dictionary entry would. */
  function AddKeyword(cfg: Config, keyword: string, weight: real): Config {
    cfg.(keywordScores := cfg.keywordScores + [(keyword, weight)])
  }

  /**
   * A new keyword raises the base score by its weight when it occurs in the
   * content and leaves it alone otherwise; the source weight does not change.
   */
  lemma AddKeywordEffect(item: NewsItem, cfg: Config, keyword: string, weight: real)
    ensures BaseScore(item, AddKeyword(cfg, keyword, weight))
         == BaseScore(item, cfg) + (if Contains(Content(item), keyword) then weight else 0.0)
    ensures SourceWeight(AddKeyword(cfg, keyword, weight), item.source) == SourceWeight(cfg, item.source)
  {
    var t := AddKeyword(cfg, keyword, weight).keywordScores;
    assert t[..|t| - 1] == cfg.keywordScores;
  }

  /** Monotonicity: a new keyword with non-negative weight never lowers the base score. */
  lemma AddKeywordMonotone(item: NewsItem, cfg: Config, keyword: string, weight: real)
    requires weight >= 0.0
    ensures BaseScore(item, AddKeyword(cfg, keyword, weight)) >= BaseScore(item, cfg)
  {
    AddKeywordEffect(item, cfg, keyword, weight);
  }

  /** Scaling the weight of the item's source by `f` scales its score by `f`. */
  lemma ScaleSourceWeight(item: NewsItem, cfg: Config, f: real)
    ensures var scaled := cfg.(sourceWeights := cfg.sourceWeights[Lower(item.source) := f * SourceWeight(cfg, item.source)]);
            Score(item, scaled) == f * Score(item, cfg)
  {
    var scaled := cfg.(sourceWeights := cfg.sourceWeights[Lower(item.source) := f * SourceWeight(cfg, item.source)]);
    var base, weight := BaseScore(item, cfg), SourceWeight(cfg, item.source);
    assert BaseScore(item, scaled) == base;
    assert SourceWeight(scaled, item.source) == f * weight;
    ScoreFromParts(item, scaled, base, f * weight);
    ScoreFromParts(item, cfg, base, weight);
    Regroup(base, f, weight);
  }

  lemma Regroup(a: real, b: real, c: real)
    ensures a * (b * c) == b * (a * c)
  {
  }
}
