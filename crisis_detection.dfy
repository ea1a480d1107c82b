/** The rule-based crisis risk engine: phrase matching over lower-cased text,
    threshold rules over behaviour metrics, reduction of the indicators to one
    risk level, and the fixed recommendation lists per level. */
module CrisisDetection {
  import opened Wrappers
  import opened Severities

  /** Milliseconds since the epoch; each `new Date()` becomes a caller-supplied clock reading. */
  type Timestamp = int

  datatype IndicatorType = Behavioral | Linguistic | Physiological | Environmental

  datatype Indicator = Indicator(
    kind: IndicatorType,
    severity: Severity,
    description: string,
    timestamp: Timestamp,
    confidence: real)

  datatype Assessment = Assessment(
    overallRisk: Severity,
    indicators: seq<Indicator>,
    recommendedActions: seq<string>,
    timestamp: Timestamp,
    requiresImmediateAttention: bool)

  // ---------------------------------------------------------------------------
  // Text: lower-casing and substring containment
  // ---------------------------------------------------------------------------

  /** ASCII lower-casing of one character; every other character is kept. */
  function LowerChar(c: char): char {
    if 'A' <= c <= 'Z' then (c as int + ('a' as int - 'A' as int)) as char else c
  }

  predicate IsUpperAscii(c: char) {
    'A' <= c <= 'Z'
  }

  /** `String.prototype.toLowerCase`, restricted to the ASCII letters. */
  function ToLower(s: string): (r: string)
    ensures |r| == |s|
    ensures forall i :: 0 <= i < |r| ==> !IsUpperAscii(r[i])
    ensures forall i :: 0 <= i < |s| && !IsUpperAscii(s[i]) ==> r[i] == s[i]
    ensures forall i :: 0 <= i < |s| && IsUpperAscii(s[i]) ==> r[i] as int == s[i] as int + 32
  {
    seq(|s|, i requires 0 <= i < |s| => LowerChar(s[i]))
  }

  /** Lower-casing twice is lower-casing once. */
  lemma ToLowerIdempotent(s: string)
    ensures ToLower(ToLower(s)) == ToLower(s)
  {
  }

  /** `p` occurs in `s` starting at index `i`. */
  predicate OccursAt(s: string, p: string, i: int) {
    0 <= i && i + |p| <= |s| && s[i..i + |p|] == p
  }

  /** `String.prototype.includes`: plain substring containment, no word boundaries,
      scanning the start positions from left to right. */
  predicate Contains(s: string, p: string)
    decreases |s|
  {
    |p| <= |s| && (s[..|p|] == p || Contains(s[1..], p))
  }

  /** The scan finds `p` exactly when `p` occurs at some position of `s`. */
  lemma {:induction false} ContainsIffOccurs(s: string, p: string)
    ensures Contains(s, p) <==> exists i :: OccursAt(s, p, i)
    decreases |s|
  {
    if |p| > |s| {
      assert forall i :: !OccursAt(s, p, i);
    } else if s[..|p|] == p {
      assert OccursAt(s, p, 0);
    } else {
      var rest := s[1..];
      ContainsIffOccurs(rest, p);
      if Contains(rest, p) {
        var i :| OccursAt(rest, p, i);
        assert rest[i..i + |p|] == s[i + 1..i + 1 + |p|];
        assert OccursAt(s, p, i + 1);
      }
      if exists i :: OccursAt(s, p, i) {
        var i :| OccursAt(s, p, i);
        assert i != 0;
        assert rest[i - 1..i - 1 + |p|] == s[i..i + |p|];
        assert OccursAt(rest, p, i - 1);
      }
    }
  }

  // ---------------------------------------------------------------------------
  // The two phrase vocabularies
  // ---------------------------------------------------------------------------

  const CriticalKeywords: seq<string> :=
    ["suicide", "kill myself", "end it all", "not worth living", "better off dead", "want to die"]

  const HighRiskKeywords: seq<string> :=
    ["hopeless", "worthless", "trapped", "unbearable pain", "cant go on", "give up"]

  /** A phrase vocabulary together with what a match in it reports. */
  datatype Vocabulary = CriticalPhrases | HighRiskPhrases {

    function Keywords(): seq<string> {
      match this
      case CriticalPhrases => CriticalKeywords
      case HighRiskPhrases => HighRiskKeywords
    }

    function Level(): Severity {
      match this
      case CriticalPhrases => Critical
      case HighRiskPhrases => High
    }

    function Confidence(): real {
      match this
      case CriticalPhrases => 0.9
      case HighRiskPhrases => 0.7
    }

    function Label(): string {
      match this
      case CriticalPhrases => "Critical language detected: "
      case HighRiskPhrases => "High-risk language detected: "
    }
  }

  /** The indicator pushed for one matched phrase. */
  function PhraseIndicator(v: Vocabulary, keyword: string, now: Timestamp): Indicator {
    Indicator(Linguistic, v.Level(), v.Label() + "\"" + keyword + "\"", now, v.Confidence())
  }

  /** The indicators produced by the phrases `keywords`, in list order, for already lower-cased text. */
  function Matches(v: Vocabulary, keywords: seq<string>, text: string, now: Timestamp): (r: seq<Indicator>)
    ensures |r| <= |keywords|
    ensures forall j :: 0 <= j < |r| ==>
      r[j].kind == Linguistic && r[j].severity == v.Level() && r[j].confidence == v.Confidence()
        && r[j].timestamp == now
  {
    if keywords == [] then []
    else
      var earlier := Matches(v, keywords[..|keywords| - 1], text, now);
      var keyword := keywords[|keywords| - 1];
      assert keywords == keywords[..|keywords| - 1] + [keyword];
      if Contains(text, keyword) then earlier + [PhraseIndicator(v, keyword, now)] else earlier
  }

  /** Every indicator of a pass belongs to a listed phrase that occurs in the text. */
  lemma {:induction false} MatchesSoundAt(v: Vocabulary, keywords: seq<string>, text: string, now: Timestamp, j: nat)
    returns (keyword: string)
    requires j < |Matches(v, keywords, text, now)|
    ensures keyword in keywords && Contains(text, keyword)
    ensures Matches(v, keywords, text, now)[j] == PhraseIndicator(v, keyword, now)
    decreases |keywords|
  {
    var init := keywords[..|keywords| - 1];
    var earlier := Matches(v, init, text, now);
    assert keywords == init + [keywords[|keywords| - 1]];
    if j < |earlier| {
      keyword := MatchesSoundAt(v, init, text, now, j);
    } else {
      keyword := keywords[|keywords| - 1];
    }
  }

  /** `analyzeText` as a value: critical-phrase indicators, then high-risk-phrase indicators. */
  function TextIndicators(text: string, now: Timestamp): (r: seq<Indicator>)
    ensures forall j :: 0 <= j < |r| ==> r[j].kind == Linguistic && r[j].timestamp == now
    ensures forall j :: 0 <= j < |r| ==>
      (r[j].severity == Critical && r[j].confidence == 0.9) || (r[j].severity == High && r[j].confidence == 0.7)
    ensures forall p, q :: 0 <= p < q < |r| ==> !(r[p].severity == High && r[q].severity == Critical)
  {
    var lowerText := ToLower(text);
    Matches(CriticalPhrases, CriticalKeywords, lowerText, now)
      + Matches(HighRiskPhrases, HighRiskKeywords, lowerText, now)
  }

  /** Matching distributes over a split of the phrase list: the indicators of earlier
      phrases precede those of later ones. */
  lemma {:induction false} MatchesAppend(v: Vocabulary, a: seq<string>, b: seq<string>, text: string, now: Timestamp)
    ensures Matches(v, a + b, text, now) == Matches(v, a, text, now) + Matches(v, b, text, now)
    decreases |b|
  {
    if b != [] {
      var init, last := b[..|b| - 1], b[|b| - 1];
      assert (a + b)[..|a + b| - 1] == a + init;
      assert (a + b)[|a + b| - 1] == last;
      MatchesAppend(v, a, init, text, now);
      var step := if Contains(text, last) then [PhraseIndicator(v, last, now)] else [];
      assert Matches(v, b, text, now) == Matches(v, init, text, now) + step;
      assert Matches(v, a + b, text, now) == Matches(v, a + init, text, now) + step;
    } else {
      assert a + b == a;
    }
  }

  /** Distinct phrases yield distinct indicators. */
  lemma PhraseIndicatorInjective(v: Vocabulary, a: string, b: string, now: Timestamp)
    requires PhraseIndicator(v, a, now) == PhraseIndicator(v, b, now)
    ensures a == b
  {
    var prefix := v.Label() + "\"";
    var da := prefix + a + "\"";
    var db := prefix + b + "\"";
    assert da == db;
    assert a == da[|prefix|..|prefix| + |a|];
    assert b == db[|prefix|..|prefix| + |b|];
  }

  /** A phrase's indicator is reported iff the phrase is listed and contained in the text. */
  lemma {:induction false} PhraseReported(v: Vocabulary, keywords: seq<string>, text: string, now: Timestamp, keyword: string)
    ensures PhraseIndicator(v, keyword, now) in Matches(v, keywords, text, now)
        <==> keyword in keywords && Contains(text, keyword)
  {
    if keywords != [] {
      var init, last := keywords[..|keywords| - 1], keywords[|keywords| - 1];
      assert keywords == init + [last];
      PhraseReported(v, init, text, now, keyword);
      if PhraseIndicator(v, keyword, now) == PhraseIndicator(v, last, now) {
        PhraseIndicatorInjective(v, keyword, last, now);
      }
    }
  }

  predicate NoDuplicates(keywords: seq<string>) {
    forall i, j :: 0 <= i < j < |keywords| ==> keywords[i] != keywords[j]
  }

  /** Over a list without repeated phrases, each contained phrase is reported exactly once. */
  lemma {:induction false} PhraseReportedOnce(v: Vocabulary, keywords: seq<string>, text: string, now: Timestamp, keyword: string)
    requires NoDuplicates(keywords)
    ensures multiset(Matches(v, keywords, text, now))[PhraseIndicator(v, keyword, now)]
         == if keyword in keywords && Contains(text, keyword) then 1 else 0
  {
    if keywords != [] {
      var init, last := keywords[..|keywords| - 1], keywords[|keywords| - 1];
      assert keywords == init + [last];
      PhraseReportedOnce(v, init, text, now, keyword);
      if last == keyword {
        assert keyword !in init;
      } else if PhraseIndicator(v, keyword, now) == PhraseIndicator(v, last, now) {
        PhraseIndicatorInjective(v, keyword, last, now);
      }
    }
  }

  /** Both vocabularies list each phrase once. */
  lemma KeywordListsDistinct()
    ensures NoDuplicates(CriticalKeywords) && NoDuplicates(HighRiskKeywords)
  {
  }

  /** For every phrase of either vocabulary contained in the lower-cased text,
      `analyzeText` reports exactly one indicator, and none for the other phrases. */
  lemma TextReportsEachPhraseOnce(v: Vocabulary, text: string, now: Timestamp, keyword: string)
    ensures multiset(TextIndicators(text, now))[PhraseIndicator(v, keyword, now)]
         == if keyword in v.Keywords() && Contains(ToLower(text), keyword) then 1 else 0
  {
    var lowerText := ToLower(text);
    var critical := Matches(CriticalPhrases, CriticalKeywords, lowerText, now);
    var high := Matches(HighRiskPhrases, HighRiskKeywords, lowerText, now);
    KeywordListsDistinct();
    PhraseReportedOnce(v, v.Keywords(), lowerText, now, keyword);
    var other := if v == CriticalPhrases then high else critical;
    assert PhraseIndicator(v, keyword, now) !in other;
    assert multiset(TextIndicators(text, now)) == multiset(critical) + multiset(high);
  }

  /** A one-phrase list whose phrase is contained reports exactly that phrase. */
  lemma SingleMatch(v: Vocabulary, keyword: string, text: string, now: Timestamp)
    requires Contains(text, keyword)
    ensures Matches(v, [keyword], text, now) == [PhraseIndicator(v, keyword, now)]
  {
    assert [keyword][..0] == [];
  }

  /** Splitting a phrase list at position `j` into the phrases before it, it, and the rest. */
  lemma {:induction false} SplitAt(v: Vocabulary, keywords: seq<string>, text: string, now: Timestamp, j: nat)
    requires j < |keywords|
    ensures Matches(v, keywords, text, now)
         == Matches(v, keywords[..j], text, now) + Matches(v, [keywords[j]], text, now)
          + Matches(v, keywords[j + 1..], text, now)
  {
    assert keywords == keywords[..j] + ([keywords[j]] + keywords[j + 1..]);
    MatchesAppend(v, [keywords[j]], keywords[j + 1..], text, now);
    MatchesAppend(v, keywords[..j], [keywords[j]] + keywords[j + 1..], text, now);
  }

  /** Within one phrase list, contained phrases are reported in list order. */
  lemma {:induction false} MatchesInListOrder(v: Vocabulary, keywords: seq<string>, text: string, now: Timestamp, i: nat, j: nat)
    returns (p: nat, q: nat)
    requires i < j < |keywords| && Contains(text, keywords[i]) && Contains(text, keywords[j])
    ensures p < q < |Matches(v, keywords, text, now)|
    ensures Matches(v, keywords, text, now)[p] == PhraseIndicator(v, keywords[i], now)
    ensures Matches(v, keywords, text, now)[q] == PhraseIndicator(v, keywords[j], now)
  {
    var m := Matches(v, keywords[..j], text, now);
    var tail := Matches(v, keywords[j + 1..], text, now);
    SplitAt(v, keywords, text, now, j);
    SingleMatch(v, keywords[j], text, now);
    assert keywords[..j][i] == keywords[i];
    PhraseReported(v, keywords[..j], text, now, keywords[i]);
    p :| p < |m| && m[p] == PhraseIndicator(v, keywords[i], now);
    q := |m|;
    assert Matches(v, keywords, text, now) == m + [PhraseIndicator(v, keywords[j], now)] + tail;
  }

  /** Two positions of one part of a two-part concatenation, shifted into the whole. */
  lemma {:induction false} PositionsInConcat(first: seq<Indicator>, second: seq<Indicator>, inFirst: bool,
                                             p: nat, q: nat) returns (p': nat, q': nat)
    requires p < q < |if inFirst then first else second|
    ensures p' < q' < |first + second|
    ensures (first + second)[p'] == (if inFirst then first else second)[p]
    ensures (first + second)[q'] == (if inFirst then first else second)[q]
  {
    if inFirst {
      p', q' := p, q;
    } else {
      p', q' := |first| + p, |first| + q;
    }
  }

  /** The two passes over already lower-cased text report each vocabulary's phrases in list order. */
  lemma {:induction false} PassesInOrder(v: Vocabulary, lowerText: string, now: Timestamp, i: nat, j: nat)
    returns (p: nat, q: nat)
    requires i < j < |v.Keywords()|
    requires Contains(lowerText, v.Keywords()[i]) && Contains(lowerText, v.Keywords()[j])
    ensures var all := Matches(CriticalPhrases, CriticalKeywords, lowerText, now)
                     + Matches(HighRiskPhrases, HighRiskKeywords, lowerText, now);
      && p < q < |all|
      && all[p] == PhraseIndicator(v, v.Keywords()[i], now)
      && all[q] == PhraseIndicator(v, v.Keywords()[j], now)
  {
    var p', q' := MatchesInListOrder(v, v.Keywords(), lowerText, now, i, j);
    p, q := PositionsInConcat(Matches(CriticalPhrases, CriticalKeywords, lowerText, now),
                              Matches(HighRiskPhrases, HighRiskKeywords, lowerText, now),
                              v == CriticalPhrases, p', q');
  }

  /** `analyzeText` reports the contained phrases of each vocabulary in list order. */
  lemma PhraseOrder(v: Vocabulary, text: string, now: Timestamp, i: nat, j: nat) returns (p: nat, q: nat)
    requires i < j < |v.Keywords()|
    requires Contains(ToLower(text), v.Keywords()[i]) && Contains(ToLower(text), v.Keywords()[j])
    ensures p < q < |TextIndicators(text, now)|
    ensures TextIndicators(text, now)[p] == PhraseIndicator(v, v.Keywords()[i], now)
    ensures TextIndicators(text, now)[q] == PhraseIndicator(v, v.Keywords()[j], now)
  {
    p, q := PassesInOrder(v, ToLower(text), now, i, j);
  }

  /** Every indicator `analyzeText` returns is the indicator of a vocabulary phrase occurring in the lower-cased text. */
  lemma TextIndicatorSound(text: string, now: Timestamp, j: nat) returns (v: Vocabulary, keyword: string)
    requires j < |TextIndicators(text, now)|
    ensures keyword in v.Keywords() && Contains(ToLower(text), keyword)
    ensures TextIndicators(text, now)[j] == PhraseIndicator(v, keyword, now)
  {
    var lowerText := ToLower(text);
    var critical := Matches(CriticalPhrases, CriticalKeywords, lowerText, now);
    var high := Matches(HighRiskPhrases, HighRiskKeywords, lowerText, now);
    assert TextIndicators(text, now) == critical + high;
    if j < |critical| {
      v := CriticalPhrases;
      keyword := MatchesSoundAt(v, CriticalKeywords, lowerText, now, j);
    } else {
      v := HighRiskPhrases;
      keyword := MatchesSoundAt(v, HighRiskKeywords, lowerText, now, j - |critical|);
    }
  }

  /** A phrase list reports nothing exactly when none of its phrases is contained. */
  lemma {:induction false} NothingMatched(v: Vocabulary, keywords: seq<string>, text: string, now: Timestamp)
    ensures Matches(v, keywords, text, now) == [] <==> forall k :: k in keywords ==> !Contains(text, k)
  {
    if keywords != [] {
      var init, last := keywords[..|keywords| - 1], keywords[|keywords| - 1];
      assert keywords == init + [last];
      NothingMatched(v, init, text, now);
      assert forall k :: k in keywords <==> k in init || k == last;
      var earlier := Matches(v, init, text, now);
      if Contains(text, last) {
        assert Matches(v, keywords, text, now) == earlier + [PhraseIndicator(v, last, now)];
        assert last in keywords;
      } else {
        assert Matches(v, keywords, text, now) == earlier;
      }
    }
  }

  /** Text with none of the twelve phrases, after lower-casing, yields no indicator; and conversely. */
  lemma NoPhraseNoIndicator(text: string, now: Timestamp)
    ensures TextIndicators(text, now) == []
        <==> forall k :: k in CriticalKeywords + HighRiskKeywords ==> !Contains(ToLower(text), k)
  {
    NothingMatched(CriticalPhrases, CriticalKeywords, ToLower(text), now);
    NothingMatched(HighRiskPhrases, HighRiskKeywords, ToLower(text), now);
  }

  /** Matching ignores the case of ASCII letters. */
  lemma TextMatchingIgnoresCase(text: string, now: Timestamp)
    ensures TextIndicators(ToLower(text), now) == TextIndicators(text, now)
  {
    ToLowerIdempotent(text);
  }

  /** One `forEach` pass of `analyzeText`: push an indicator for every phrase of
      `keywords` that the lower-cased text contains. */
  method ScanPhrases(v: Vocabulary, keywords: seq<string>, lowerText: string, now: Timestamp)
    returns (found: seq<Indicator>)
    ensures found == Matches(v, keywords, lowerText, now)
  {
    found := [];
    for i := 0 to |keywords|
      invariant found == Matches(v, keywords[..i], lowerText, now)
    {
      var keyword := keywords[i];
      assert keywords[..i + 1][..i] == keywords[..i];
      if Contains(lowerText, keyword) {
        found := found + [PhraseIndicator(v, keyword, now)];
      }
    }
    assert keywords[..|keywords|] == keywords;
  }

  /** `analyzeText`: the critical-phrase pass, then the high-risk-phrase pass. */
  method AnalyzeText(text: string, now: Timestamp) returns (indicators: seq<Indicator>)
    ensures indicators == TextIndicators(text, now)
  {
    var lowerText := ToLower(text);
    var critical := ScanPhrases(CriticalPhrases, CriticalKeywords, lowerText, now);
    var high := ScanPhrases(HighRiskPhrases, HighRiskKeywords, lowerText, now);
    indicators := critical + high;
  }

  // ---------------------------------------------------------------------------
  // Behaviour metrics
  // ---------------------------------------------------------------------------

  /** The metrics bag; an absent field is `None`. */
  datatype BehaviorMetrics = BehaviorMetrics(
    rapidClicks: Option<real>,
    timeSpentOnCrisisPages: Option<real>,
    frequentBackNavigation: Option<real>,
    sessionDuration: Option<real>)

  const RapidClicksThreshold: real := 10.0
  const CrisisPageSecondsThreshold: real := 300.0

  /** `metrics.f && metrics.f > threshold`: an absent field never triggers. */
  predicate Exceeds(field: Option<real>, threshold: real) {
    field.Some? && field.value > threshold
  }

  const RapidClicksIndicatorText := "Rapid clicking behavior detected"
  const CrisisPagesIndicatorText := "Extended time spent on crisis resources"

  /** `analyzeBehavior`: the rapid-click rule, then the crisis-page-time rule. */
  function BehaviorIndicators(metrics: BehaviorMetrics, now: Timestamp): (r: seq<Indicator>)
    ensures |r| <= 2
    ensures forall j :: 0 <= j < |r| ==> r[j].kind == Behavioral && r[j].timestamp == now
    ensures forall j :: 0 <= j < |r| ==>
      (r[j].severity == Medium && r[j].confidence == 0.6) || (r[j].severity == High && r[j].confidence == 0.8)
    ensures HasSeverity(r, Medium) <==> Exceeds(metrics.rapidClicks, RapidClicksThreshold)
    ensures HasSeverity(r, High) <==> Exceeds(metrics.timeSpentOnCrisisPages, CrisisPageSecondsThreshold)
    ensures forall p, q :: 0 <= p < q < |r| ==> r[p].severity == Medium && r[q].severity == High
  {
    var rapid := Indicator(Behavioral, Medium, RapidClicksIndicatorText, now, 0.6);
    var lingering := Indicator(Behavioral, High, CrisisPagesIndicatorText, now, 0.8);
    match (Exceeds(metrics.rapidClicks, RapidClicksThreshold),
           Exceeds(metrics.timeSpentOnCrisisPages, CrisisPageSecondsThreshold))
    case (true, true) =>
      var r := [rapid, lingering];
      assert r[0].severity == Medium && r[1].severity == High;
      r
    case (true, false) =>
      var r := [rapid];
      assert r[0].severity == Medium;
      r
    case (false, true) =>
      var r := [lingering];
      assert r[0].severity == High;
      r
    case (false, false) => []
  }

  /** `frequentBackNavigation` and `sessionDuration` are never consulted. */
  lemma BehaviorIgnoresOtherFields(metrics: BehaviorMetrics, backNavigation: Option<real>, session: Option<real>, now: Timestamp)
    ensures BehaviorIndicators(metrics.(frequentBackNavigation := backNavigation, sessionDuration := session), now)
         == BehaviorIndicators(metrics, now)
  {
  }

  // ---------------------------------------------------------------------------
  // Aggregation
  // ---------------------------------------------------------------------------

  /** `allIndicators.some(i => i.severity === level)`. */
  predicate HasSeverity(indicators: seq<Indicator>, level: Severity)
    ensures HasSeverity(indicators, level) ==> indicators != []
  {
    exists j :: 0 <= j < |indicators| && indicators[j].severity == level
  }

  /** A severity is present in a concatenation iff it is present in one of the parts. */
  lemma HasSeverityConcat(a: seq<Indicator>, b: seq<Indicator>, level: Severity)
    ensures HasSeverity(a + b, level) <==> HasSeverity(a, level) || HasSeverity(b, level)
  {
    if HasSeverity(a + b, level) {
      var j :| 0 <= j < |a + b| && (a + b)[j].severity == level;
      if j < |a| {
        assert a[j] == (a + b)[j];
      } else {
        assert b[j - |a|] == (a + b)[j];
      }
    }
    if HasSeverity(a, level) {
      var j :| 0 <= j < |a| && a[j].severity == level;
      assert (a + b)[j] == a[j];
    }
    if HasSeverity(b, level) {
      var j :| 0 <= j < |b| && b[j].severity == level;
      assert (a + b)[|a| + j] == b[j];
    }
  }

  /** The `hasCritical` / `hasHigh` / `hasMedium` cascade. */
  function OverallRisk(indicators: seq<Indicator>): (r: Severity)
    ensures forall j :: 0 <= j < |indicators| ==> indicators[j].severity.Rank() <= r.Rank()
    ensures r == Low || HasSeverity(indicators, r)
    ensures indicators == [] ==> r == Low
  {
    if HasSeverity(indicators, Critical) then Critical
    else if HasSeverity(indicators, High) then High
    else if HasSeverity(indicators, Medium) then Medium
    else Low
  }

  /** A left-to-right maximum: an independent definition of the highest severity present. */
  function MaxSeverity(indicators: seq<Indicator>): Severity {
    if indicators == [] then Low
    else Max(MaxSeverity(indicators[..|indicators| - 1]), indicators[|indicators| - 1].severity)
  }

  /** The cascade computes the maximum of the severities present. */
  lemma {:induction false} OverallRiskIsMaximum(indicators: seq<Indicator>)
    ensures OverallRisk(indicators) == MaxSeverity(indicators)
  {
    if indicators != [] {
      var earlier := indicators[..|indicators| - 1];
      var last := indicators[|indicators| - 1];
      OverallRiskIsMaximum(earlier);
      assert indicators == earlier + [last];
      var r, m := OverallRisk(indicators), MaxSeverity(indicators);
      assert m.Rank() <= r.Rank() by {
        if m == last.severity {
        } else {
          assert m == OverallRisk(earlier);
          if m != Low {
            var j :| 0 <= j < |earlier| && earlier[j].severity == m;
            assert indicators[j].severity == m;
          }
        }
      }
      assert r.Rank() <= m.Rank() by {
        if r != Low {
          var j :| 0 <= j < |indicators| && indicators[j].severity == r;
          if j < |earlier| {
            assert earlier[j].severity == r;
          }
        }
      }
      RankInjective(r, m);
    }
  }

  /** Adding indicators never lowers the overall risk. */
  lemma RiskMonotonic(indicators: seq<Indicator>, more: seq<Indicator>)
    requires forall j :: 0 <= j < |indicators| ==> indicators[j] in more
    ensures OverallRisk(indicators).Rank() <= OverallRisk(more).Rank()
  {
    var r := OverallRisk(indicators);
    if r != Low {
      var j :| 0 <= j < |indicators| && indicators[j].severity == r;
      var k :| 0 <= k < |more| && more[k] == indicators[j];
    }
  }

  // ---------------------------------------------------------------------------
  // Recommendations
  // ---------------------------------------------------------------------------

  const CallLifeline := "Call National Suicide Prevention Lifeline (988)"
  const TextCrisisLine := "Text HOME to 741741 for crisis text line"

  /** `generateRecommendations`: a closed mapping from the level to its ordered action list. */
  function Recommendations(level: Severity): (r: seq<string>)
    ensures |r| == (if level == Low then 4 else 5)
    ensures CallLifeline in r <==> level == Critical || level == High
    ensures TextCrisisLine in r <==> level == Critical || level == High
  {
    match level
    case Critical => [
      "Contact emergency services (911) immediately",
      CallLifeline,
      TextCrisisLine,
      "Go to nearest emergency room",
      "Contact trusted friend or family member"]
    case High => [
      CallLifeline,
      TextCrisisLine,
      "Reach out to mental health professional",
      "Contact trusted support person",
      "Use safety planning tools"]
    case Medium => [
      "Consider talking to a counselor",
      "Practice breathing exercises",
      "Reach out to support network",
      "Use coping strategies",
      "Monitor symptoms"]
    case Low => [
      "Continue self-care practices",
      "Stay connected with support system",
      "Monitor mood changes",
      "Use wellness tools available"]
  }

  // ---------------------------------------------------------------------------
  // Assessment
  // ---------------------------------------------------------------------------

  /** The indicators an assessment collects: text first (only for a non-empty text), then behaviour. */
  function CollectIndicators(textInput: Option<string>, behaviorMetrics: Option<BehaviorMetrics>, now: Timestamp): seq<Indicator> {
    (if textInput.Some? && textInput.value != "" then TextIndicators(textInput.value, now) else [])
    + (if behaviorMetrics.Some? then BehaviorIndicators(behaviorMetrics.value, now) else [])
  }

  /** `assessCrisisRisk` as a value. */
  function Assess(textInput: Option<string>, behaviorMetrics: Option<BehaviorMetrics>, now: Timestamp): (a: Assessment)
    ensures a.indicators == CollectIndicators(textInput, behaviorMetrics, now)
    ensures forall j :: 0 <= j < |a.indicators| ==> a.indicators[j].severity.Rank() <= a.overallRisk.Rank()
    ensures a.overallRisk == Low || HasSeverity(a.indicators, a.overallRisk)
    ensures a.requiresImmediateAttention <==> a.overallRisk == Critical || a.overallRisk == High
    ensures a.recommendedActions != [] && a.recommendedActions == Recommendations(a.overallRisk)
    ensures a.timestamp == now
  {
    var all := CollectIndicators(textInput, behaviorMetrics, now);
    var hasCritical := HasSeverity(all, Critical);
    var hasHigh := HasSeverity(all, High);
    var overallRisk := OverallRisk(all);
    Assessment(overallRisk, all, Recommendations(overallRisk), now, hasCritical || hasHigh)
  }

  /** `assessCrisisRisk`: accumulate the indicators, then reduce and look up the actions. */
  method AssessCrisisRisk(textInput: Option<string>, behaviorMetrics: Option<BehaviorMetrics>, now: Timestamp)
    returns (assessment: Assessment)
    ensures assessment == Assess(textInput, behaviorMetrics, now)
  {
    var fromText: seq<Indicator> := [];
    if textInput.Some? && textInput.value != "" {
      fromText := AnalyzeText(textInput.value, now);
    }
    var fromBehavior: seq<Indicator> := [];
    if behaviorMetrics.Some? {
      fromBehavior := BehaviorIndicators(behaviorMetrics.value, now);
    }
    var allIndicators := fromText + fromBehavior;
    var hasCritical := HasSeverity(allIndicators, Critical);
    var hasHigh := HasSeverity(allIndicators, High);
    var hasMedium := HasSeverity(allIndicators, Medium);
    var overallRisk := Low;
    if hasCritical {
      overallRisk := Critical;
    } else if hasHigh {
      overallRisk := High;
    } else if hasMedium {
      overallRisk := Medium;
    }
    var recommendedActions := Recommendations(overallRisk);
    assessment := Assessment(overallRisk, allIndicators, recommendedActions, now, hasCritical || hasHigh);
  }

  // ---------------------------------------------------------------------------
  // Properties of the assessment
  // ---------------------------------------------------------------------------

  /** A contained phrase is never empty, so the text that contains it is not empty. */
  lemma ContainingTextNotEmpty(v: Vocabulary, text: string, keyword: string)
    requires keyword in v.Keywords() && Contains(ToLower(text), keyword)
    ensures text != ""
  {
    assert |keyword| > 0;
  }

  /** One critical indicator makes the overall risk critical. */
  lemma RiskIsCritical(indicators: seq<Indicator>)
    requires HasSeverity(indicators, Critical)
    ensures OverallRisk(indicators) == Critical
  {
    var j :| 0 <= j < |indicators| && indicators[j].severity == Critical;
    assert indicators[j].severity.Rank() <= OverallRisk(indicators).Rank();
  }

  /** A high indicator and no critical one make the overall risk high. */
  lemma RiskIsHigh(indicators: seq<Indicator>)
    requires HasSeverity(indicators, High) && !HasSeverity(indicators, Critical)
    ensures OverallRisk(indicators) == High
  {
    var j :| 0 <= j < |indicators| && indicators[j].severity == High;
    assert indicators[j].severity.Rank() <= OverallRisk(indicators).Rank();
  }

  /** Two lists without a critical indicator have none between them. */
  lemma NoCriticalInConcat(a: seq<Indicator>, b: seq<Indicator>)
    requires forall k :: 0 <= k < |a| ==> a[k].severity != Critical
    requires forall k :: 0 <= k < |b| ==> b[k].severity != Critical
    ensures !HasSeverity(a + b, Critical)
  {
    forall k | 0 <= k < |a + b|
      ensures (a + b)[k].severity != Critical
    {
      if k < |a| {
        assert (a + b)[k] == a[k];
      } else {
        assert (a + b)[k] == b[k - |a|];
      }
    }
  }

  /** Text containing a critical phrase makes the assessment critical and urgent, whatever the metrics. */
  lemma CriticalPhraseMeansCritical(text: string, behaviorMetrics: Option<BehaviorMetrics>, now: Timestamp, keyword: string)
    requires keyword in CriticalKeywords && Contains(ToLower(text), keyword)
    ensures Assess(Some(text), behaviorMetrics, now).overallRisk == Critical
    ensures Assess(Some(text), behaviorMetrics, now).requiresImmediateAttention
  {
    ContainingTextNotEmpty(CriticalPhrases, text, keyword);
    var lowerText := ToLower(text);
    PhraseReported(CriticalPhrases, CriticalKeywords, lowerText, now, keyword);
    var critical := Matches(CriticalPhrases, CriticalKeywords, lowerText, now);
    var j :| 0 <= j < |critical| && critical[j] == PhraseIndicator(CriticalPhrases, keyword, now);
    var all := CollectIndicators(Some(text), behaviorMetrics, now);
    assert all[j] == critical[j];
    RiskIsCritical(all);
  }

  /** Text containing a high-risk phrase but no critical phrase makes the assessment high, whatever the metrics. */
  lemma HighPhraseMeansHigh(text: string, behaviorMetrics: Option<BehaviorMetrics>, now: Timestamp, keyword: string)
    requires keyword in HighRiskKeywords && Contains(ToLower(text), keyword)
    requires forall k :: k in CriticalKeywords ==> !Contains(ToLower(text), k)
    ensures Assess(Some(text), behaviorMetrics, now).overallRisk == High
    ensures Assess(Some(text), behaviorMetrics, now).requiresImmediateAttention
  {
    ContainingTextNotEmpty(HighRiskPhrases, text, keyword);
    var lowerText := ToLower(text);
    NothingMatched(CriticalPhrases, CriticalKeywords, lowerText, now);
    PhraseReported(HighRiskPhrases, HighRiskKeywords, lowerText, now, keyword);
    var high := Matches(HighRiskPhrases, HighRiskKeywords, lowerText, now);
    var behavior := if behaviorMetrics.Some? then BehaviorIndicators(behaviorMetrics.value, now) else [];
    var all := CollectIndicators(Some(text), behaviorMetrics, now);
    assert all == high + behavior;
    var j :| 0 <= j < |high| && high[j] == PhraseIndicator(HighRiskPhrases, keyword, now);
    assert all[j] == high[j];
    NoCriticalInConcat(high, behavior);
    RiskIsHigh(all);
  }

  /** Without any phrase and without a triggered metric there is nothing to report and the risk is low. */
  lemma QuietInputMeansLow(text: Option<string>, behaviorMetrics: Option<BehaviorMetrics>, now: Timestamp)
    requires text.Some? ==> forall k :: k in CriticalKeywords + HighRiskKeywords ==> !Contains(ToLower(text.value), k)
    requires behaviorMetrics.Some? ==>
      !Exceeds(behaviorMetrics.value.rapidClicks, RapidClicksThreshold)
      && !Exceeds(behaviorMetrics.value.timeSpentOnCrisisPages, CrisisPageSecondsThreshold)
    ensures Assess(text, behaviorMetrics, now).indicators == []
    ensures Assess(text, behaviorMetrics, now).overallRisk == Low
    ensures !Assess(text, behaviorMetrics, now).requiresImmediateAttention
  {
    if text.Some? {
      NoPhraseNoIndicator(text.value, now);
    }
  }

  /**
   * The worked example's message, "I feel hopeless and want to die". It is
   * spelled as the concatenation of its pieces so that the positions of the
   * two phrases (7 and 20) follow from the pieces' lengths.
   */
  const ExampleMessage: string := "I feel " + "hopeless" + " and " + "want to die"

  /** An occurrence of a phrase without upper-case letters survives lower-casing. */
  lemma LowerKeepsPhrase(s: string, p: string, i: int)
    requires OccursAt(s, p, i)
    requires forall k :: 0 <= k < |p| ==> !IsUpperAscii(p[k])
    ensures OccursAt(ToLower(s), p, i)
  {
    var lowered := ToLower(s);
    forall k | 0 <= k < |p|
      ensures lowered[i + k] == p[k]
    {
      assert s[i + k] == s[i..i + |p|][k] == p[k];
    }
    assert lowered[i..i + |p|] == p;
  }

  /** Two characters are the same letter up to ASCII case, the first possibly upper-case. */
  predicate SameIgnoringCase(c: char, lower: char) {
    c == lower || (IsUpperAscii(c) && c as int + 32 == lower as int)
  }

  /** `p` occurs in `s` at index `i` when upper-case letters of `s` count as their lower-case letters. */
  predicate OccursIgnoringCase(s: string, p: string, i: int) {
    0 <= i && i + |p| <= |s| && forall k :: 0 <= k < |p| ==> SameIgnoringCase(s[i + k], p[k])
  }

  /** A string without upper-case ASCII letters. */
  predicate LowerCaseOnly(p: string) {
    forall k :: 0 <= k < |p| ==> !IsUpperAscii(p[k])
  }

  /** A lower-case phrase occurring up to case occurs exactly after lower-casing. */
  lemma LowerFindsPhrase(s: string, p: string, i: int)
    requires LowerCaseOnly(p) && OccursIgnoringCase(s, p, i)
    ensures OccursAt(ToLower(s), p, i)
  {
    var lowered := ToLower(s);
    forall k | 0 <= k < |p|
      ensures lowered[i + k] == p[k]
    {
      if IsUpperAscii(s[i + k]) {
        assert lowered[i + k] as int == p[k] as int;
      }
    }
    assert lowered[i..i + |p|] == p;
  }

  /** Both vocabularies are written in lower case. */
  lemma VocabulariesLowerCase(v: Vocabulary, keyword: string)
    requires keyword in v.Keywords()
    ensures LowerCaseOnly(keyword)
  {
  }

  /** A vocabulary phrase that occurs in the message in any ASCII case is reported. */
  lemma PhraseReportedIgnoringCase(v: Vocabulary, text: string, now: Timestamp, keyword: string, i: int)
    requires keyword in v.Keywords() && OccursIgnoringCase(text, keyword, i)
    ensures PhraseIndicator(v, keyword, now) in TextIndicators(text, now)
  {
    var lowerText := ToLower(text);
    VocabulariesLowerCase(v, keyword);
    LowerFindsPhrase(text, keyword, i);
    ContainsIffOccurs(lowerText, keyword);
    PhraseReported(v, v.Keywords(), lowerText, now, keyword);
    assert TextIndicators(text, now)
        == Matches(CriticalPhrases, CriticalKeywords, lowerText, now) + Matches(HighRiskPhrases, HighRiskKeywords, lowerText, now);
  }

  /** A shouted critical phrase is still reported. */
  lemma ShoutedPhraseReported(now: Timestamp)
    ensures PhraseIndicator(CriticalPhrases, "kill myself", now) in TextIndicators("KILL MYSELF", now)
  {
    assert OccursIgnoringCase("KILL MYSELF", "kill myself", 0);
    PhraseReportedIgnoringCase(CriticalPhrases, "KILL MYSELF", now, "kill myself", 0);
  }

  /** Both phrases of the worked example occur in its lower-cased message. */
  lemma ExamplePhrasesOccur()
    ensures Contains(ToLower(ExampleMessage), "hopeless") && Contains(ToLower(ExampleMessage), "want to die")
  {
    assert ExampleMessage[7..15] == "hopeless";
    assert ExampleMessage[20..31] == "want to die";
    LowerKeepsPhrase(ExampleMessage, "hopeless", 7);
    LowerKeepsPhrase(ExampleMessage, "want to die", 20);
    ContainsIffOccurs(ToLower(ExampleMessage), "hopeless");
    ContainsIffOccurs(ToLower(ExampleMessage), "want to die");
  }

  /** The worked example: a message with one high-risk and one critical phrase. */
  lemma HopelessAndWantToDie(now: Timestamp)
    ensures var a := Assess(Some(ExampleMessage), None, now);
      && multiset(a.indicators)[PhraseIndicator(CriticalPhrases, "want to die", now)] == 1
      && multiset(a.indicators)[PhraseIndicator(HighRiskPhrases, "hopeless", now)] == 1
      && a.overallRisk == Critical && a.requiresImmediateAttention
      && CallLifeline in a.recommendedActions
  {
    ExamplePhrasesOccur();
    TextReportsEachPhraseOnce(CriticalPhrases, ExampleMessage, now, "want to die");
    TextReportsEachPhraseOnce(HighRiskPhrases, ExampleMessage, now, "hopeless");
    CriticalPhraseMeansCritical(ExampleMessage, None, now, "want to die");
    assert Assess(Some(ExampleMessage), None, now).indicators == TextIndicators(ExampleMessage, now) + [];
  }
}
