/**
 * The scorer on the fixed items of the filtering and application tests.
 *
 * Each text is written as its words joined by single spaces (`JoinWords`),
 * with the text itself in the comment above it. A keyword occurs when one
 * lower-cased word contains it (`KeyInWords`). A keyword is absent when every
 * word is shorter than it or lacks both cases of one of its letters, the
 * "probe" letters of the `...Probes...` facts (`AbsentByProbesIn`); a text
 * that lacks a bonus pattern's literal cannot match the pattern.
 */
module FilteringScenarios {
  import opened Text
  import opened Models
  import opened Patterns
  import opened Wrappers
  import opened Filtering

  /** A text that lacks one of a pattern's literals does not match the pattern. */
  lemma PatternRuledOut(p: Pattern, ws: seq<string>, lit: string)
    requires lit in Literals(p) && Absent(JoinWords(ws), lit)
    ensures !Search(p, Lower(JoinWords(ws)))
  {
    SearchIgnoresCase(p, JoinWords(ws));
    SearchNeedsLiterals(p, JoinWords(ws));
  }

  /** The content of an item whose title and body are word lists is their joined, lower-cased words. */
  lemma ContentOfWords(item: NewsItem, title: seq<string>, body: seq<string>)
    requires title != [] && body != []
    requires item.title == JoinWords(title) && item.body == Some(JoinWords(body))
    ensures Content(item) == Lower(JoinWords(title + body))
  {
    JoinWordsAppend(title, body);
  }

  /** The default entries the scenarios use; every weight and bonus is non-negative. */
  lemma DefaultTableFacts()
    ensures |DefaultConfig.keywordScores| == 11
    ensures DefaultConfig.keywordScores[3] == ("critical vulnerability", 5.0)
    ensures DefaultConfig.keywordScores[4] == ("exploit", 3.0)
    ensures DefaultConfig.keywordScores[7] == ("zero-day", 5.0)
    ensures forall e :: e in DefaultConfig.keywordScores ==> e.1 >= 0.0
    ensures forall e :: e in DefaultConfig.patternBonuses ==> e.1 >= 0.0
  {
  }

  /** The source weights the scenarios use. */
  lemma ScenarioSourceWeights()
    ensures SourceWeight(DefaultConfig, "arstechnica") == 1.2
    ensures SourceWeight(DefaultConfig, "reddit") == 1.0
    ensures SourceWeight(DefaultConfig, "Source A") == 1.0
    ensures SourceWeight(DefaultConfig, "Source B") == 1.0
  {
    assert Lower("arstechnica") == "arstechnica";
    assert Lower("reddit") == "reddit";
    assert Lower("Source A") == "source a";
    assert Lower("Source B") == "source b";
  }

  // ---------------------------------------------------------------------
  // "Critical zero-day vulnerability in Microsoft Exchange exploited" /
  // "Attackers released an exploit. CVE-2025-12345 issued. Patch now."
  // from arstechnica: relevant, with a score above 5.

  const HighTitle: seq<string> := ["Critical", "zero-day", "vulnerability", "in", "Microsoft", "Exchange", "exploited"]
  const HighBody: seq<string> := ["Attackers", "released", "an", "exploit.", "CVE-2025-12345", "issued.", "Patch", "now."]

  function HighRelevance(now: int): NewsItem {
    NewsItem("test-001", "arstechnica", JoinWords(HighTitle), Some(JoinWords(HighBody)), now)
  }

  lemma HighHasZeroDay()
    ensures Contains(Lower(JoinWords(HighTitle + HighBody)), "zero-day")
  {
    assert (HighTitle + HighBody)[1] == "zero-day";
    assert MatchAt(Lower("zero-day"), "zero-day", 0);
    KeyInWords(HighTitle + HighBody, 1, "zero-day");
  }

  lemma HighHasExploit()
    ensures Contains(Lower(JoinWords(HighTitle + HighBody)), "exploit")
  {
    assert (HighTitle + HighBody)[6] == "exploited";
    assert MatchAt(Lower("exploited"), "exploit", 0);
    KeyInWords(HighTitle + HighBody, 6, "exploit");
  }

  /** "zero-day" and "exploit" alone give 8, scaled by arstechnica's 1.2. */
  lemma HighRelevanceScoresAboveFive(now: int)
    ensures Score(HighRelevance(now), DefaultConfig) > 5.0
    ensures Score(HighRelevance(now), DefaultConfig) >= DefaultThreshold
  {
    var item := HighRelevance(now);
    ContentOfWords(item, HighTitle, HighBody);
    HighHasZeroDay();
    HighHasExploit();
    assert Contains(Content(item), "zero-day") && Contains(Content(item), "exploit");
    DefaultTableFacts();
    BaseScoreAtLeastPair(item, DefaultConfig, 4, 7);
    assert BaseScore(item, DefaultConfig) >= 8.0;
    ScenarioSourceWeights();
    assert Score(item, DefaultConfig) == BaseScore(item, DefaultConfig) * 1.2;
  }

  // ---------------------------------------------------------------------
  // "Critical vulnerability, need quick fix." from "Source A", with no
  // body: relevant, with a positive score. Its first piece holds a space.

  const CriticalTitle: seq<string> := ["Critical vulnerability,", "need", "quick", "fix."]

  function CriticalVulnerability(now: int): NewsItem {
    NewsItem(id := "1", source := "Source A", title := JoinWords(CriticalTitle), publishedAt := now)
  }

  lemma CriticalHasKeyword()
    ensures Contains(Lower(JoinWords(CriticalTitle + [""])), "critical vulnerability")
  {
    assert (CriticalTitle + [""])[0] == "Critical vulnerability,";
    assert MatchAt(Lower("Critical vulnerability,"), "critical vulnerability", 0);
    KeyInWords(CriticalTitle + [""], 0, "critical vulnerability");
  }

  /** "critical vulnerability" gives 5 and "Source A" is unlisted, so the score is positive and relevant. */
  lemma CriticalVulnerabilityIsRelevant(now: int)
    ensures Score(CriticalVulnerability(now), DefaultConfig) > 0.0
    ensures Score(CriticalVulnerability(now), DefaultConfig) >= DefaultThreshold
  {
    var item := CriticalVulnerability(now);
    ContentOfWords(item, CriticalTitle, [""]);
    CriticalHasKeyword();
    assert Contains(Content(item), "critical vulnerability");
    DefaultTableFacts();
    BaseScoreAtLeastOne(item, DefaultConfig, 3);
    assert BaseScore(item, DefaultConfig) >= 5.0;
    ScenarioSourceWeights();
    assert Score(item, DefaultConfig) == BaseScore(item, DefaultConfig) * 1.0;
  }

  // ---------------------------------------------------------------------
  // "Company updates terms of service" / "The new TOS will be effective
  // starting August 1." from reddit: nothing matches.

  const LowTitle: seq<string> := ["Company", "updates", "terms", "of", "service"]
  const LowBody: seq<string> := ["The", "new", "TOS", "will", "be", "effective", "starting", "August", "1."]

  function LowRelevance(now: int): NewsItem {
    NewsItem("test-002", "reddit", JoinWords(LowTitle), Some(JoinWords(LowBody)), now)
  }

  lemma LowTitleProbesRansomware() ensures ProbesRuleOut(LowTitle, "ransomware", 'r', 'R', 'r', 'R', 'r', 'R') {}
  lemma LowBodyProbesRansomware() ensures ProbesRuleOut(LowBody, "ransomware", 'r', 'R', 'r', 'R', 'r', 'R') {}

  lemma LowLacksRansomware()
    ensures Absent(JoinWords(LowTitle + LowBody), "ransomware")
  {
    LowTitleProbesRansomware();
    LowBodyProbesRansomware();
    AbsentByProbesIn(LowTitle, LowBody, "ransomware", 'r', 'R', 'r', 'R', 'r', 'R');
  }

  lemma LowTitleProbesBreach() ensures ProbesRuleOut(LowTitle, "breach", 'b', 'B', 'b', 'B', 'b', 'B') {}
  lemma LowBodyProbesBreach() ensures ProbesRuleOut(LowBody, "breach", 'b', 'B', 'b', 'B', 'b', 'B') {}

  lemma LowLacksBreach()
    ensures Absent(JoinWords(LowTitle + LowBody), "breach")
  {
    LowTitleProbesBreach();
    LowBodyProbesBreach();
    AbsentByProbesIn(LowTitle, LowBody, "breach", 'b', 'B', 'b', 'B', 'b', 'B');
  }

  lemma LowTitleProbesCriticalHead() ensures ProbesRuleOut(LowTitle[..2], "critical", 'l', 'L', 'l', 'L', 'l', 'L') {}
  lemma LowTitleProbesCriticalTail() ensures ProbesRuleOut(LowTitle[2..], "critical", 'l', 'L', 'l', 'L', 'l', 'L') {}

  lemma LowTitleProbesCritical()
    ensures ProbesRuleOut(LowTitle, "critical", 'l', 'L', 'l', 'L', 'l', 'L')
  {
    LowTitleProbesCriticalHead();
    LowTitleProbesCriticalTail();
    assert LowTitle == LowTitle[..2] + LowTitle[2..];
    ProbesRuleOutAppend(LowTitle[..2], LowTitle[2..], "critical", 'l', 'L', 'l', 'L', 'l', 'L');
  }

  lemma LowBodyProbesCriticalHead() ensures ProbesRuleOut(LowBody[..5], "critical", 'l', 'L', 'l', 'L', 'l', 'L') {}
  lemma LowBodyProbesCriticalTail() ensures ProbesRuleOut(LowBody[5..], "critical", 'l', 'L', 'l', 'L', 'l', 'L') {}

  lemma LowBodyProbesCritical()
    ensures ProbesRuleOut(LowBody, "critical", 'l', 'L', 'l', 'L', 'l', 'L')
  {
    LowBodyProbesCriticalHead();
    LowBodyProbesCriticalTail();
    assert LowBody == LowBody[..5] + LowBody[5..];
    ProbesRuleOutAppend(LowBody[..5], LowBody[5..], "critical", 'l', 'L', 'l', 'L', 'l', 'L');
  }


  lemma LowLacksCritical()
    ensures Absent(JoinWords(LowTitle + LowBody), "critical")
  {
    LowTitleProbesCritical();
    LowBodyProbesCritical();
    AbsentByProbesIn(LowTitle, LowBody, "critical", 'l', 'L', 'l', 'L', 'l', 'L');
  }

  lemma LowTitleProbesExploit() ensures ProbesRuleOut(LowTitle, "exploit", 'x', 'X', 'x', 'X', 'x', 'X') {}
  lemma LowBodyProbesExploit() ensures ProbesRuleOut(LowBody, "exploit", 'x', 'X', 'x', 'X', 'x', 'X') {}

  lemma LowLacksExploit()
    ensures Absent(JoinWords(LowTitle + LowBody), "exploit")
  {
    LowTitleProbesExploit();
    LowBodyProbesExploit();
    AbsentByProbesIn(LowTitle, LowBody, "exploit", 'x', 'X', 'x', 'X', 'x', 'X');
  }

  lemma LowTitleProbesDdosHead() ensures ProbesRuleOut(LowTitle[..2], "ddos", 'd', 'D', 'o', 'O', 'o', 'O') {}
  lemma LowTitleProbesDdosTail() ensures ProbesRuleOut(LowTitle[2..], "ddos", 'd', 'D', 'o', 'O', 'o', 'O') {}

  lemma LowTitleProbesDdos()
    ensures ProbesRuleOut(LowTitle, "ddos", 'd', 'D', 'o', 'O', 'o', 'O')
  {
    LowTitleProbesDdosHead();
    LowTitleProbesDdosTail();
    assert LowTitle == LowTitle[..2] + LowTitle[2..];
    ProbesRuleOutAppend(LowTitle[..2], LowTitle[2..], "ddos", 'd', 'D', 'o', 'O', 'o', 'O');
  }

  lemma LowBodyProbesDdosHead() ensures ProbesRuleOut(LowBody[..5], "ddos", 'd', 'D', 'o', 'O', 'o', 'O') {}
  lemma LowBodyProbesDdosTail() ensures ProbesRuleOut(LowBody[5..], "ddos", 'd', 'D', 'o', 'O', 'o', 'O') {}

  lemma LowBodyProbesDdos()
    ensures ProbesRuleOut(LowBody, "ddos", 'd', 'D', 'o', 'O', 'o', 'O')
  {
    LowBodyProbesDdosHead();
    LowBodyProbesDdosTail();
    assert LowBody == LowBody[..5] + LowBody[5..];
    ProbesRuleOutAppend(LowBody[..5], LowBody[5..], "ddos", 'd', 'D', 'o', 'O', 'o', 'O');
  }


  lemma LowLacksDdos()
    ensures Absent(JoinWords(LowTitle + LowBody), "ddos")
  {
    LowTitleProbesDdos();
    LowBodyProbesDdos();
    AbsentByProbesIn(LowTitle, LowBody, "ddos", 'd', 'D', 'o', 'O', 'o', 'O');
  }

  lemma LowTitleProbesLeak() ensures ProbesRuleOut(LowTitle, "leak", 'k', 'K', 'k', 'K', 'k', 'K') {}
  lemma LowBodyProbesLeak() ensures ProbesRuleOut(LowBody, "leak", 'k', 'K', 'k', 'K', 'k', 'K') {}

  lemma LowLacksLeak()
    ensures Absent(JoinWords(LowTitle + LowBody), "leak")
  {
    LowTitleProbesLeak();
    LowBodyProbesLeak();
    AbsentByProbesIn(LowTitle, LowBody, "leak", 'k', 'K', 'k', 'K', 'k', 'K');
  }

  lemma LowTitleProbesZeroDay() ensures ProbesRuleOut(LowTitle, "zero-day", 'z', 'Z', 'z', 'Z', 'z', 'Z') {}
  lemma LowBodyProbesZeroDay() ensures ProbesRuleOut(LowBody, "zero-day", 'z', 'Z', 'z', 'Z', 'z', 'Z') {}

  lemma LowLacksZeroDay()
    ensures Absent(JoinWords(LowTitle + LowBody), "zero-day")
  {
    LowTitleProbesZeroDay();
    LowBodyProbesZeroDay();
    AbsentByProbesIn(LowTitle, LowBody, "zero-day", 'z', 'Z', 'z', 'Z', 'z', 'Z');
  }

  lemma LowTitleProbesPatch() ensures ProbesRuleOut(LowTitle, "patch", 'h', 'H', 'h', 'H', 'h', 'H') {}
  lemma LowBodyProbesPatch() ensures ProbesRuleOut(LowBody, "patch", 'h', 'H', 'h', 'H', 'h', 'H') {}

  lemma LowLacksPatch()
    ensures Absent(JoinWords(LowTitle + LowBody), "patch")
  {
    LowTitleProbesPatch();
    LowBodyProbesPatch();
    AbsentByProbesIn(LowTitle, LowBody, "patch", 'h', 'H', 'h', 'H', 'h', 'H');
  }

  lemma LowTitleProbesMitigation() ensures ProbesRuleOut(LowTitle, "mitigation", 'm', 'M', 'm', 'M', 'm', 'M') {}
  lemma LowBodyProbesMitigation() ensures ProbesRuleOut(LowBody, "mitigation", 'm', 'M', 'm', 'M', 'm', 'M') {}

  lemma LowLacksMitigation()
    ensures Absent(JoinWords(LowTitle + LowBody), "mitigation")
  {
    LowTitleProbesMitigation();
    LowBodyProbesMitigation();
    AbsentByProbesIn(LowTitle, LowBody, "mitigation", 'm', 'M', 'm', 'M', 'm', 'M');
  }

  lemma LowTitleProbesOutageHead() ensures ProbesRuleOut(LowTitle[..2], "outage", 'o', 'O', 'u', 'U', 'u', 'U') {}
  lemma LowTitleProbesOutageTail() ensures ProbesRuleOut(LowTitle[2..], "outage", 'o', 'O', 'u', 'U', 'u', 'U') {}

  lemma LowTitleProbesOutage()
    ensures ProbesRuleOut(LowTitle, "outage", 'o', 'O', 'u', 'U', 'u', 'U')
  {
    LowTitleProbesOutageHead();
    LowTitleProbesOutageTail();
    assert LowTitle == LowTitle[..2] + LowTitle[2..];
    ProbesRuleOutAppend(LowTitle[..2], LowTitle[2..], "outage", 'o', 'O', 'u', 'U', 'u', 'U');
  }

  lemma LowBodyProbesOutageHead() ensures ProbesRuleOut(LowBody[..5], "outage", 'o', 'O', 'u', 'U', 'u', 'U') {}
  lemma LowBodyProbesOutageTail() ensures ProbesRuleOut(LowBody[5..], "outage", 'o', 'O', 'u', 'U', 'u', 'U') {}

  lemma LowBodyProbesOutage()
    ensures ProbesRuleOut(LowBody, "outage", 'o', 'O', 'u', 'U', 'u', 'U')
  {
    LowBodyProbesOutageHead();
    LowBodyProbesOutageTail();
    assert LowBody == LowBody[..5] + LowBody[5..];
    ProbesRuleOutAppend(LowBody[..5], LowBody[5..], "outage", 'o', 'O', 'u', 'U', 'u', 'U');
  }


  lemma LowLacksOutage()
    ensures Absent(JoinWords(LowTitle + LowBody), "outage")
  {
    LowTitleProbesOutage();
    LowBodyProbesOutage();
    AbsentByProbesIn(LowTitle, LowBody, "outage", 'o', 'O', 'u', 'U', 'u', 'U');
  }

  lemma LowTitleProbesCvePrefix() ensures ProbesRuleOut(LowTitle, "cve-", '-', '-', '-', '-', '-', '-') {}
  lemma LowBodyProbesCvePrefix() ensures ProbesRuleOut(LowBody, "cve-", '-', '-', '-', '-', '-', '-') {}

  lemma LowLacksCvePrefix()
    ensures Absent(JoinWords(LowTitle + LowBody), "cve-")
  {
    LowTitleProbesCvePrefix();
    LowBodyProbesCvePrefix();
    AbsentByProbesIn(LowTitle, LowBody, "cve-", '-', '-', '-', '-', '-', '-');
  }


  lemma LowLacksCriticalVulnerability()
    ensures Absent(JoinWords(LowTitle + LowBody), "critical vulnerability")
  {
    LowLacksCritical();
    assert "critical vulnerability"[..8] == "critical";
    AbsentByPrefix(JoinWords(LowTitle + LowBody), "critical vulnerability", 8);
  }

  /** No default keyword occurs in the terms-of-service text. */
  lemma LowKeywordsAbsent()
    ensures forall e :: e in DefaultKeywordScores ==> !Contains(Lower(JoinWords(LowTitle + LowBody)), e.0)
  {
    LowLacksRansomware();
    LowLacksBreach();
    UpperKeyNeverInLowered(JoinWords(LowTitle + LowBody), "CVE", 0);
    LowLacksCriticalVulnerability();
    LowLacksExploit();
    LowLacksDdos();
    LowLacksLeak();
    LowLacksZeroDay();
    LowLacksPatch();
    LowLacksMitigation();
    LowLacksOutage();
  }

  /** No default pattern matches the terms-of-service text. */
  lemma LowPatternsAbsent()
    ensures forall e :: e in DefaultPatternBonuses ==> !Search(e.0, Lower(JoinWords(LowTitle + LowBody)))
  {
    var ws := LowTitle + LowBody;
    LowLacksCvePrefix();
    LowLacksOutage();
    LowLacksBreach();
    LowLacksExploit();
    assert Lower("outage") == "outage" && Lower("breach") == "breach" && Lower("exploit") == "exploit";
    PatternRuledOut(CveId, ws, "cve-");
    PatternRuledOut(WordsInLine("AWS", "outage"), ws, "outage");
    PatternRuledOut(WordsInLine("Google", "breach"), ws, "breach");
    PatternRuledOut(WordsSpaced("exploit", "released"), ws, "exploit");
  }

  /** The terms-of-service item matches no keyword and no pattern, so it scores 0 and is not relevant. */
  lemma LowRelevanceScoresZero(now: int)
    ensures Score(LowRelevance(now), DefaultConfig) == 0.0
    ensures Score(LowRelevance(now), DefaultConfig) < DefaultThreshold
  {
    var item := LowRelevance(now);
    ContentOfWords(item, LowTitle, LowBody);
    LowKeywordsAbsent();
    LowPatternsAbsent();
    ScoreZeroWhenNothingMatches(item, DefaultConfig);
  }

  // ---------------------------------------------------------------------
  // The two sample items of the application tests.
  //
  // "1": "Apple rolls out urgent security patch" / "Fixes flaws actively
  // exploited in the wild." from "Source B", 2025-06-15T16:10:00Z.
  // "2": "Zero-day exploit in Microsoft Edge" / "New vulnerability affects
  // latest version." from "Source A", 2025-06-15T16:00:00Z.

  const SampleOneTitle: seq<string> := ["Apple", "rolls", "out", "urgent", "security", "patch"]
  const SampleOneBody: seq<string> := ["Fixes", "flaws", "actively", "exploited", "in", "the", "wild."]
  const SampleTwoTitle: seq<string> := ["Zero-day", "exploit", "in", "Microsoft", "Edge"]
  const SampleTwoBody: seq<string> := ["New", "vulnerability", "affects", "latest", "version."]

  /** 2025-06-15T16:10:00Z and 2025-06-15T16:00:00Z in seconds since the epoch. */
  const SampleOneAt: int := 1750003800
  const SampleTwoAt: int := 1750003200

  function SampleOne(): NewsItem {
    NewsItem("1", "Source B", JoinWords(SampleOneTitle), Some(JoinWords(SampleOneBody)), SampleOneAt)
  }

  function SampleTwo(): NewsItem {
    NewsItem("2", "Source A", JoinWords(SampleTwoTitle), Some(JoinWords(SampleTwoBody)), SampleTwoAt)
  }

  lemma SampleOneTitleProbesRansomware() ensures ProbesRuleOut(SampleOneTitle, "ransomware", 'r', 'R', 'r', 'R', 'r', 'R') {}
  lemma SampleOneBodyProbesRansomware() ensures ProbesRuleOut(SampleOneBody, "ransomware", 'r', 'R', 'r', 'R', 'r', 'R') {}

  lemma SampleOneLacksRansomware()
    ensures Absent(JoinWords(SampleOneTitle + SampleOneBody), "ransomware")
  {
    SampleOneTitleProbesRansomware();
    SampleOneBodyProbesRansomware();
    AbsentByProbesIn(SampleOneTitle, SampleOneBody, "ransomware", 'r', 'R', 'r', 'R', 'r', 'R');
  }

  lemma SampleOneTitleProbesBreach() ensures ProbesRuleOut(SampleOneTitle, "breach", 'b', 'B', 'b', 'B', 'b', 'B') {}
  lemma SampleOneBodyProbesBreach() ensures ProbesRuleOut(SampleOneBody, "breach", 'b', 'B', 'b', 'B', 'b', 'B') {}

  lemma SampleOneLacksBreach()
    ensures Absent(JoinWords(SampleOneTitle + SampleOneBody), "breach")
  {
    SampleOneTitleProbesBreach();
    SampleOneBodyProbesBreach();
    AbsentByProbesIn(SampleOneTitle, SampleOneBody, "breach", 'b', 'B', 'b', 'B', 'b', 'B');
  }

  lemma SampleOneTitleProbesCriticalHead() ensures ProbesRuleOut(SampleOneTitle[..3], "critical", 'a', 'A', 'r', 'R', 'r', 'R') {}
  lemma SampleOneTitleProbesCriticalTail() ensures ProbesRuleOut(SampleOneTitle[3..], "critical", 'a', 'A', 'r', 'R', 'r', 'R') {}

  lemma SampleOneTitleProbesCritical()
    ensures ProbesRuleOut(SampleOneTitle, "critical", 'a', 'A', 'r', 'R', 'r', 'R')
  {
    SampleOneTitleProbesCriticalHead();
    SampleOneTitleProbesCriticalTail();
    assert SampleOneTitle == SampleOneTitle[..3] + SampleOneTitle[3..];
    ProbesRuleOutAppend(SampleOneTitle[..3], SampleOneTitle[3..], "critical", 'a', 'A', 'r', 'R', 'r', 'R');
  }

  lemma SampleOneBodyProbesCriticalHead() ensures ProbesRuleOut(SampleOneBody[..4], "critical", 'a', 'A', 'r', 'R', 'r', 'R') {}
  lemma SampleOneBodyProbesCriticalTail() ensures ProbesRuleOut(SampleOneBody[4..], "critical", 'a', 'A', 'r', 'R', 'r', 'R') {}

  lemma SampleOneBodyProbesCritical()
    ensures ProbesRuleOut(SampleOneBody, "critical", 'a', 'A', 'r', 'R', 'r', 'R')
  {
    SampleOneBodyProbesCriticalHead();
    SampleOneBodyProbesCriticalTail();
    assert SampleOneBody == SampleOneBody[..4] + SampleOneBody[4..];
    ProbesRuleOutAppend(SampleOneBody[..4], SampleOneBody[4..], "critical", 'a', 'A', 'r', 'R', 'r', 'R');
  }


  lemma SampleOneLacksCritical()
    ensures Absent(JoinWords(SampleOneTitle + SampleOneBody), "critical")
  {
    SampleOneTitleProbesCritical();
    SampleOneBodyProbesCritical();
    AbsentByProbesIn(SampleOneTitle, SampleOneBody, "critical", 'a', 'A', 'r', 'R', 'r', 'R');
  }

  lemma SampleOneTitleProbesDdosHead() ensures ProbesRuleOut(SampleOneTitle[..3], "ddos", 'd', 'D', 's', 'S', 'o', 'O') {}
  lemma SampleOneTitleProbesDdosTail() ensures ProbesRuleOut(SampleOneTitle[3..], "ddos", 'd', 'D', 's', 'S', 'o', 'O') {}

  lemma SampleOneTitleProbesDdos()
    ensures ProbesRuleOut(SampleOneTitle, "ddos", 'd', 'D', 's', 'S', 'o', 'O')
  {
    SampleOneTitleProbesDdosHead();
    SampleOneTitleProbesDdosTail();
    assert SampleOneTitle == SampleOneTitle[..3] + SampleOneTitle[3..];
    ProbesRuleOutAppend(SampleOneTitle[..3], SampleOneTitle[3..], "ddos", 'd', 'D', 's', 'S', 'o', 'O');
  }

  lemma SampleOneBodyProbesDdosHead() ensures ProbesRuleOut(SampleOneBody[..4], "ddos", 'd', 'D', 's', 'S', 'o', 'O') {}
  lemma SampleOneBodyProbesDdosTail() ensures ProbesRuleOut(SampleOneBody[4..], "ddos", 'd', 'D', 's', 'S', 'o', 'O') {}

  lemma SampleOneBodyProbesDdos()
    ensures ProbesRuleOut(SampleOneBody, "ddos", 'd', 'D', 's', 'S', 'o', 'O')
  {
    SampleOneBodyProbesDdosHead();
    SampleOneBodyProbesDdosTail();
    assert SampleOneBody == SampleOneBody[..4] + SampleOneBody[4..];
    ProbesRuleOutAppend(SampleOneBody[..4], SampleOneBody[4..], "ddos", 'd', 'D', 's', 'S', 'o', 'O');
  }


  lemma SampleOneLacksDdos()
    ensures Absent(JoinWords(SampleOneTitle + SampleOneBody), "ddos")
  {
    SampleOneTitleProbesDdos();
    SampleOneBodyProbesDdos();
    AbsentByProbesIn(SampleOneTitle, SampleOneBody, "ddos", 'd', 'D', 's', 'S', 'o', 'O');
  }

  lemma SampleOneTitleProbesLeak() ensures ProbesRuleOut(SampleOneTitle, "leak", 'k', 'K', 'k', 'K', 'k', 'K') {}
  lemma SampleOneBodyProbesLeak() ensures ProbesRuleOut(SampleOneBody, "leak", 'k', 'K', 'k', 'K', 'k', 'K') {}

  lemma SampleOneLacksLeak()
    ensures Absent(JoinWords(SampleOneTitle + SampleOneBody), "leak")
  {
    SampleOneTitleProbesLeak();
    SampleOneBodyProbesLeak();
    AbsentByProbesIn(SampleOneTitle, SampleOneBody, "leak", 'k', 'K', 'k', 'K', 'k', 'K');
  }

  lemma SampleOneTitleProbesZeroDay() ensures ProbesRuleOut(SampleOneTitle, "zero-day", 'z', 'Z', 'z', 'Z', 'z', 'Z') {}
  lemma SampleOneBodyProbesZeroDay() ensures ProbesRuleOut(SampleOneBody, "zero-day", 'z', 'Z', 'z', 'Z', 'z', 'Z') {}

  lemma SampleOneLacksZeroDay()
    ensures Absent(JoinWords(SampleOneTitle + SampleOneBody), "zero-day")
  {
    SampleOneTitleProbesZeroDay();
    SampleOneBodyProbesZeroDay();
    AbsentByProbesIn(SampleOneTitle, SampleOneBody, "zero-day", 'z', 'Z', 'z', 'Z', 'z', 'Z');
  }

  lemma SampleOneTitleProbesMitigation() ensures ProbesRuleOut(SampleOneTitle, "mitigation", 'm', 'M', 'm', 'M', 'm', 'M') {}
  lemma SampleOneBodyProbesMitigation() ensures ProbesRuleOut(SampleOneBody, "mitigation", 'm', 'M', 'm', 'M', 'm', 'M') {}

  lemma SampleOneLacksMitigation()
    ensures Absent(JoinWords(SampleOneTitle + SampleOneBody), "mitigation")
  {
    SampleOneTitleProbesMitigation();
    SampleOneBodyProbesMitigation();
    AbsentByProbesIn(SampleOneTitle, SampleOneBody, "mitigation", 'm', 'M', 'm', 'M', 'm', 'M');
  }

  lemma SampleOneTitleProbesOutageHead() ensures ProbesRuleOut(SampleOneTitle[..3], "outage", 'o', 'O', 'u', 'U', 'u', 'U') {}
  lemma SampleOneTitleProbesOutageTail() ensures ProbesRuleOut(SampleOneTitle[3..], "outage", 'o', 'O', 'u', 'U', 'u', 'U') {}

  lemma SampleOneTitleProbesOutage()
    ensures ProbesRuleOut(SampleOneTitle, "outage", 'o', 'O', 'u', 'U', 'u', 'U')
  {
    SampleOneTitleProbesOutageHead();
    SampleOneTitleProbesOutageTail();
    assert SampleOneTitle == SampleOneTitle[..3] + SampleOneTitle[3..];
    ProbesRuleOutAppend(SampleOneTitle[..3], SampleOneTitle[3..], "outage", 'o', 'O', 'u', 'U', 'u', 'U');
  }

  lemma SampleOneBodyProbesOutageHead() ensures ProbesRuleOut(SampleOneBody[..4], "outage", 'o', 'O', 'u', 'U', 'u', 'U') {}
  lemma SampleOneBodyProbesOutageTail() ensures ProbesRuleOut(SampleOneBody[4..], "outage", 'o', 'O', 'u', 'U', 'u', 'U') {}

  lemma SampleOneBodyProbesOutage()
    ensures ProbesRuleOut(SampleOneBody, "outage", 'o', 'O', 'u', 'U', 'u', 'U')
  {
    SampleOneBodyProbesOutageHead();
    SampleOneBodyProbesOutageTail();
    assert SampleOneBody == SampleOneBody[..4] + SampleOneBody[4..];
    ProbesRuleOutAppend(SampleOneBody[..4], SampleOneBody[4..], "outage", 'o', 'O', 'u', 'U', 'u', 'U');
  }


  lemma SampleOneLacksOutage()
    ensures Absent(JoinWords(SampleOneTitle + SampleOneBody), "outage")
  {
    SampleOneTitleProbesOutage();
    SampleOneBodyProbesOutage();
    AbsentByProbesIn(SampleOneTitle, SampleOneBody, "outage", 'o', 'O', 'u', 'U', 'u', 'U');
  }

  lemma SampleOneTitleProbesCvePrefix() ensures ProbesRuleOut(SampleOneTitle, "cve-", '-', '-', '-', '-', '-', '-') {}
  lemma SampleOneBodyProbesCvePrefix() ensures ProbesRuleOut(SampleOneBody, "cve-", '-', '-', '-', '-', '-', '-') {}

  lemma SampleOneLacksCvePrefix()
    ensures Absent(JoinWords(SampleOneTitle + SampleOneBody), "cve-")
  {
    SampleOneTitleProbesCvePrefix();
    SampleOneBodyProbesCvePrefix();
    AbsentByProbesIn(SampleOneTitle, SampleOneBody, "cve-", '-', '-', '-', '-', '-', '-');
  }

  lemma SampleOneTitleProbesReleased() ensures ProbesRuleOut(SampleOneTitle, "released", 'd', 'D', 'r', 'R', 'r', 'R') {}
  lemma SampleOneBodyProbesReleased() ensures ProbesRuleOut(SampleOneBody, "released", 'd', 'D', 'r', 'R', 'r', 'R') {}

  lemma SampleOneLacksReleased()
    ensures Absent(JoinWords(SampleOneTitle + SampleOneBody), "released")
  {
    SampleOneTitleProbesReleased();
    SampleOneBodyProbesReleased();
    AbsentByProbesIn(SampleOneTitle, SampleOneBody, "released", 'd', 'D', 'r', 'R', 'r', 'R');
  }


  lemma SampleOneLacksCriticalVulnerability()
    ensures Absent(JoinWords(SampleOneTitle + SampleOneBody), "critical vulnerability")
  {
    SampleOneLacksCritical();
    assert "critical vulnerability"[..8] == "critical";
    AbsentByPrefix(JoinWords(SampleOneTitle + SampleOneBody), "critical vulnerability", 8);
  }

  lemma SampleOneHasPatch()
    ensures Contains(Lower(JoinWords(SampleOneTitle + SampleOneBody)), "patch")
  {
    assert (SampleOneTitle + SampleOneBody)[5] == "patch";
    assert MatchAt(Lower("patch"), "patch", 0);
    KeyInWords(SampleOneTitle + SampleOneBody, 5, "patch");
  }

  lemma SampleOneHasExploit()
    ensures Contains(Lower(JoinWords(SampleOneTitle + SampleOneBody)), "exploit")
  {
    assert (SampleOneTitle + SampleOneBody)[9] == "exploited";
    assert MatchAt(Lower("exploited"), "exploit", 0);
    KeyInWords(SampleOneTitle + SampleOneBody, 9, "exploit");
  }

  /** Of the default keywords exactly "exploit" (3) and "patch" (2) occur in item "1". */
  lemma SampleOneKeywordSum()
    ensures KeywordSum(DefaultKeywordScores, Lower(JoinWords(SampleOneTitle + SampleOneBody))) == 5.0
  {
    var content := Lower(JoinWords(SampleOneTitle + SampleOneBody));
    SampleOneLacksRansomware();
    SampleOneLacksBreach();
    UpperKeyNeverInLowered(JoinWords(SampleOneTitle + SampleOneBody), "CVE", 0);
    SampleOneLacksCriticalVulnerability();
    SampleOneHasExploit();
    SampleOneLacksDdos();
    SampleOneLacksLeak();
    SampleOneLacksZeroDay();
    SampleOneHasPatch();
    SampleOneLacksMitigation();
    SampleOneLacksOutage();
    var t := DefaultKeywordScores;
    assert t[..0] == [] && t[..11] == t;
    KeywordSumStep(t, content, 0);
    KeywordSumStep(t, content, 1);
    KeywordSumStep(t, content, 2);
    KeywordSumStep(t, content, 3);
    KeywordSumStep(t, content, 4);
    KeywordSumStep(t, content, 5);
    KeywordSumStep(t, content, 6);
    KeywordSumStep(t, content, 7);
    KeywordSumStep(t, content, 8);
    KeywordSumStep(t, content, 9);
    KeywordSumStep(t, content, 10);
  }

  /** No default pattern matches item "1". */
  lemma SampleOnePatternsAbsent()
    ensures forall e :: e in DefaultPatternBonuses ==> !Search(e.0, Lower(JoinWords(SampleOneTitle + SampleOneBody)))
  {
    var ws := SampleOneTitle + SampleOneBody;
    SampleOneLacksCvePrefix();
    SampleOneLacksOutage();
    SampleOneLacksBreach();
    SampleOneLacksReleased();
    assert Lower("outage") == "outage" && Lower("breach") == "breach" && Lower("released") == "released";
    PatternRuledOut(CveId, ws, "cve-");
    PatternRuledOut(WordsInLine("AWS", "outage"), ws, "outage");
    PatternRuledOut(WordsInLine("Google", "breach"), ws, "breach");
    PatternRuledOut(WordsSpaced("exploit", "released"), ws, "released");
  }

  /** Item "1" scores exactly 5, with weight 1.0 for "Source B". */
  lemma SampleOneScoresFive()
    ensures Score(SampleOne(), DefaultConfig) == 5.0
  {
    var item := SampleOne();
    ContentOfWords(item, SampleOneTitle, SampleOneBody);
    SampleOneKeywordSum();
    SampleOnePatternsAbsent();
    PatternSumNoneMatch(DefaultPatternBonuses, Content(item));
    assert BaseScore(item, DefaultConfig) == 5.0;
    ScenarioSourceWeights();
    assert Score(item, DefaultConfig) == BaseScore(item, DefaultConfig) * 1.0;
  }

  lemma SampleTwoHasZeroDay()
    ensures Contains(Lower(JoinWords(SampleTwoTitle + SampleTwoBody)), "zero-day")
  {
    assert (SampleTwoTitle + SampleTwoBody)[0] == "Zero-day";
    assert MatchAt(Lower("Zero-day"), "zero-day", 0);
    KeyInWords(SampleTwoTitle + SampleTwoBody, 0, "zero-day");
  }

  lemma SampleTwoHasExploit()
    ensures Contains(Lower(JoinWords(SampleTwoTitle + SampleTwoBody)), "exploit")
  {
    assert (SampleTwoTitle + SampleTwoBody)[1] == "exploit";
    assert MatchAt(Lower("exploit"), "exploit", 0);
    KeyInWords(SampleTwoTitle + SampleTwoBody, 1, "exploit");
  }

  /** Item "2" scores at least 8: "zero-day" (5) plus "exploit" (3), with weight 1.0 for "Source A". */
  lemma SampleTwoScoresAtLeastEight()
    ensures Score(SampleTwo(), DefaultConfig) >= 8.0
  {
    var item := SampleTwo();
    ContentOfWords(item, SampleTwoTitle, SampleTwoBody);
    SampleTwoHasZeroDay();
    SampleTwoHasExploit();
    assert Contains(Content(item), "zero-day") && Contains(Content(item), "exploit");
    DefaultTableFacts();
    BaseScoreAtLeastPair(item, DefaultConfig, 4, 7);
    assert BaseScore(item, DefaultConfig) >= 8.0;
    ScenarioSourceWeights();
    assert Score(item, DefaultConfig) == BaseScore(item, DefaultConfig) * 1.0;
  }

  /** Both sample items are relevant, and item "2" outscores item "1". */
  lemma SampleItemsRelevantAndOrdered()
    ensures Score(SampleOne(), DefaultConfig) >= DefaultThreshold
    ensures Score(SampleTwo(), DefaultConfig) >= DefaultThreshold
    ensures Score(SampleTwo(), DefaultConfig) > Score(SampleOne(), DefaultConfig)
  {
    SampleOneScoresFive();
    SampleTwoScoresAtLeastEight();
  }
}
