/**
 * The UI complexity dashboard: scores for a component's nesting depth,
 * element count and state, a three-band level for the total, the growth
 * curves of the chart and the recommendations shown for the sample
 * component. All quantities are integers.
 */
module Complexity {

  datatype Component = Component(name: string, depth: int, elements: int, stateVars: int,
                                 eventHandlers: int, lines: int)

  datatype Scores = Scores(depthScore: int, elementScore: int, stateScore: int, total: int)

  datatype Level = Low | Medium | High

  /** `sampleComponent`. */
  const SampleComponent := Component("TodoList", 4, 12, 5, 8, 220)

  function Max(a: int, b: int): int
  {
    if a < b then b else a
  }

  /** The element penalty `Math.max(0, Math.pow(elements - 7, 2))`: the distance from seven, squared. */
  function ElementScore(elements: int): (s: int)
    ensures s >= 0
    ensures s == 0 <==> elements == 7
  {
    Max(0, (elements - 7) * (elements - 7))
  }

  /** The `Math.max(0, …)` guard never fires: a square is never negative. */
  lemma ElementScoreIsSquare(elements: int)
    ensures ElementScore(elements) == (elements - 7) * (elements - 7)
  {
    assert (elements - 7) * (elements - 7) >= 0;
  }

  /** `calculateScores`: depth squared, the element penalty, state variables times handlers, and their sum. */
  function CalculateScores(c: Component): (s: Scores)
    ensures s.depthScore == c.depth * c.depth && s.elementScore == ElementScore(c.elements)
    ensures s.stateScore == c.stateVars * c.eventHandlers
    ensures s.total == s.depthScore + s.elementScore + s.stateScore
  {
    var depthScore := c.depth * c.depth;
    var elementScore := ElementScore(c.elements);
    var stateScore := c.stateVars * c.eventHandlers;
    Scores(depthScore, elementScore, stateScore, depthScore + elementScore + stateScore)
  }

  /** With no negative counts every score is non-negative, so the total bounds each part. */
  lemma ScoresBoundedByTotal(c: Component)
    requires c.stateVars >= 0 && c.eventHandlers >= 0
    ensures var s := CalculateScores(c);
      0 <= s.depthScore <= s.total && 0 <= s.elementScore <= s.total && 0 <= s.stateScore <= s.total
  {
    assert c.depth * c.depth >= 0;
    assert c.stateVars * c.eventHandlers >= 0;
  }

  /** `getComplexityLevel`: Low below 50, Medium below 100, High from 100. */
  function ComplexityLevel(score: int): (l: Level)
    ensures l == Low <==> score < 50
    ensures l == Medium <==> 50 <= score < 100
    ensures l == High <==> score >= 100
  {
    if score < 50 then Low else if score < 100 then Medium else High
  }

  /** The colour shown with a level: green, yellow or red, a different one for each level. */
  function LevelColor(l: Level): (r: string)
    ensures r == "text-green-600" <==> l == Low
    ensures r == "text-yellow-600" <==> l == Medium
    ensures r == "text-red-600" <==> l == High
  {
    match l
    case Low => "text-green-600"
    case Medium => "text-yellow-600"
    case High => "text-red-600"
  }

  function Rank(l: Level): nat
  {
    match l
    case Low => 0
    case Medium => 1
    case High => 2
  }

  /** A higher score never gets a lower level. */
  lemma LevelMonotone(s: int, t: int)
    requires s <= t
    ensures Rank(ComplexityLevel(s)) <= Rank(ComplexityLevel(t))
  {
  }

  /**
   * `cognitiveLoad` of the curve: linear up to seven elements, then seven plus
   * the excess squared, which never falls below the element count.
   */
  function CognitiveLoad(e: int): (r: int)
    ensures r >= e
    ensures e >= 7 ==> r >= 7
  {
    if e <= 7 then e
    else
      assert (e - 7) * (e - 7) - (e - 7) == (e - 7) * (e - 8) >= 0;
      (e - 7) * (e - 7) + 7
  }

  datatype CurvePoint = CurvePoint(elements: int, nestingPenalty: int, cognitiveLoad: int, totalComplexity: int)

  /** One point of `complexityData`, for `i` from 0. */
  function Point(i: nat): (p: CurvePoint)
    ensures p.elements == i + 1 && p.nestingPenalty == (i + 1) * (i + 1)
    ensures p.cognitiveLoad == CognitiveLoad(i + 1)
    ensures p.totalComplexity == p.nestingPenalty + p.cognitiveLoad
  {
    var e := i + 1;
    CurvePoint(e, e * e, if e <= 7 then e else (i - 6) * (i - 6) + 7, e * e + (if e <= 7 then e else (i - 6) * (i - 6) + 7))
  }

  /** `complexityData`: fifteen points for one to fifteen elements. */
  function ComplexityData(): (r: seq<CurvePoint>)
    ensures |r| == 15 && forall i :: 0 <= i < 15 ==> r[i] == Point(i)
  {
    seq(15, i requires 0 <= i => Point(i))
  }

  /** The cognitive load rises with every element and has no jump where the square takes over. */
  lemma CognitiveLoadIncreasing(e: int)
    requires e >= 1
    ensures CognitiveLoad(e) < CognitiveLoad(e + 1)
    ensures e == 7 ==> CognitiveLoad(e + 1) == CognitiveLoad(e) + 1
  {
    if e >= 8 {
      assert (e - 6) * (e - 6) == (e - 7) * (e - 7) + 2 * (e - 7) + 1;
    }
  }

  /** Along the curve, total complexity strictly increases. */
  lemma CurveIncreasing(i: nat)
    requires i + 1 < |ComplexityData()|
    ensures ComplexityData()[i].totalComplexity < ComplexityData()[i + 1].totalComplexity
  {
    CognitiveLoadIncreasing(i + 1);
    assert (i + 2) * (i + 2) == (i + 1) * (i + 1) + 2 * i + 3;
  }

  datatype Recommendation = FlattenNesting | GroupElements | SplitLines | SimplifyState

  /** The alerts shown, in page order, each when its threshold is exceeded. */
  function Recommendations(c: Component, s: Scores): (r: seq<Recommendation>)
    ensures FlattenNesting in r <==> s.depthScore > 16
    ensures GroupElements in r <==> c.elements > 7
    ensures SplitLines in r <==> c.lines > 200
    ensures SimplifyState in r <==> s.stateScore > 25
  {
    (if s.depthScore > 16 then [FlattenNesting] else [])
    + (if c.elements > 7 then [GroupElements] else [])
    + (if c.lines > 200 then [SplitLines] else [])
    + (if s.stateScore > 25 then [SimplifyState] else [])
  }

  /**
   * The sample component scores 16, 25 and 40, 81 in all, which is Medium;
   * its depth score sits exactly at the threshold, so only the element,
   * line and state alerts show.
   */
  lemma SampleAnalysis()
    ensures CalculateScores(SampleComponent) == Scores(16, 25, 40, 81)
    ensures ComplexityLevel(81) == Medium
    ensures Recommendations(SampleComponent, Scores(16, 25, 40, 81)) == [GroupElements, SplitLines, SimplifyState]
  {
  }
}
