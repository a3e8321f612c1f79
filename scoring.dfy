/**
 * The scoring engine: a speed score from latency, a length-based quality
 * estimate for content, and the fixed 70/30 weighted final score. JavaScript
 * numbers are modelled as exact reals.
 */
module Scoring {
  import JsString

  /** Latency at which the speed score reaches zero, in milliseconds. */
  const SpeedHorizonMs: real := 10000.0

  const QualityWeight: real := 0.7
  const SpeedWeight: real := 0.3

  function Min(a: real, b: real): real { if a <= b then a else b }
  function Max(a: real, b: real): real { if a >= b then a else b }

  /** `Math.max(0, Math.min(1, 1 - latencyMs / 10000))`, for any sign of latency. */
  function CalculateSpeed(latencyMs: real): (r: real)
    ensures 0.0 <= r <= 1.0
  {
    Max(0.0, Min(1.0, 1.0 - latencyMs / SpeedHorizonMs))
  }

  /** The quality band for a trimmed length, thresholds 80, 200 and 400. */
  function QualityForLength(len: nat): real {
    if len < 80 then 0.35
    else if len < 200 then 0.55
    else if len < 400 then 0.7
    else 0.85
  }

  /** Length (in UTF-16 units) of the content with surrounding whitespace removed. */
  function TrimmedLength(content: string): nat {
    JsString.Utf16Length(JsString.Trim(content))
  }

  /** `estimateQualityFromContent`: the band of the trimmed length. */
  function EstimateQualityFromContent(content: string): (q: real)
    ensures 0.35 <= q <= 0.85
  {
    QualityForLength(TrimmedLength(content))
  }

  function ComputeFinalScore(quality: real, speed: real): real {
    quality * QualityWeight + speed * SpeedWeight
  }

  /** No latency gives the full speed score. */
  lemma SpeedAtZero()
    ensures CalculateSpeed(0.0) == 1.0
  {
  }

  /** Any non-positive latency is clamped to the full score. */
  lemma SpeedClampedAbove(latencyMs: real)
    requires latencyMs <= 0.0
    ensures CalculateSpeed(latencyMs) == 1.0
  {
  }

  /** From the horizon on (10000 ms, 20000 ms, ...) the speed score is zero. */
  lemma SpeedClampedBelow(latencyMs: real)
    requires latencyMs >= SpeedHorizonMs
    ensures CalculateSpeed(latencyMs) == 0.0
  {
  }

  /** Inside [0, 10000] the speed score falls linearly. */
  lemma SpeedLinear(latencyMs: real)
    requires 0.0 <= latencyMs <= SpeedHorizonMs
    ensures CalculateSpeed(latencyMs) == 1.0 - latencyMs / 10000.0
  {
  }

  /** A larger latency never gives a larger speed score. */
  lemma SpeedMonotone(a: real, b: real)
    requires a <= b
    ensures CalculateSpeed(b) <= CalculateSpeed(a)
  {
    assert a / SpeedHorizonMs <= b / SpeedHorizonMs;
  }

  /** The quality estimate is exactly one of the four band values, chosen by the thresholds. */
  lemma QualityBands(content: string)
    ensures var q, n := EstimateQualityFromContent(content), TrimmedLength(content);
      && (q == 0.35 <==> n < 80)
      && (q == 0.55 <==> 80 <= n < 200)
      && (q == 0.7 <==> 200 <= n < 400)
      && (q == 0.85 <==> 400 <= n)
  {
  }

  /** A longer trimmed length never falls into a lower band. */
  lemma BandsMonotone(n: nat, m: nat)
    requires n <= m
    ensures QualityForLength(n) <= QualityForLength(m)
  {
  }

  /** Longer trimmed content never gets a lower quality estimate. */
  lemma QualityMonotone(a: string, b: string)
    requires TrimmedLength(a) <= TrimmedLength(b)
    ensures EstimateQualityFromContent(a) <= EstimateQualityFromContent(b)
  {
    BandsMonotone(TrimmedLength(a), TrimmedLength(b));
  }

  /** Whitespace around the content does not change its quality estimate. */
  lemma QualityIgnoresSurroundingWhitespace(pre: string, content: string, post: string)
    requires JsString.AllWhitespace(pre) && JsString.AllWhitespace(post)
    ensures EstimateQualityFromContent(pre + content + post) == EstimateQualityFromContent(content)
  {
    JsString.TrimIgnoresPadding(pre, content, post);
  }

  /** A string with no whitespace at either end and only BMP characters is measured by its size. */
  lemma TrimmedLengthOfPlain(s: string)
    requires JsString.Trimmed(s)
    requires forall i :: 0 <= i < |s| ==> s[i] as int < 0x10000
    ensures TrimmedLength(s) == |s|
  {
    JsString.TrimOfTrimmed(s);
    JsString.Utf16LengthOfBmp(s);
  }

  /** `"short"` scores strictly below `"x".repeat(500)`. */
  lemma ShortScoresBelowLong()
    ensures EstimateQualityFromContent("short") < EstimateQualityFromContent(seq(500, _ => 'x'))
  {
    var short := "short";
    var long := seq(500, _ => 'x');
    assert JsString.Trimmed(long) by {
      assert long[0] == 'x' && long[|long| - 1] == 'x';
    }
    TrimmedLengthOfPlain(short);
    TrimmedLengthOfPlain(long);
    BandsMonotone(5, 500);
    assert QualityForLength(5) == 0.35;
    assert QualityForLength(500) == 0.85;
  }

  /** The 70/30 weights give exactly 0.71 for quality 0.8 and speed 0.5. */
  lemma FinalScoreExample()
    ensures ComputeFinalScore(0.8, 0.5) == 0.71
  {
  }

  /** Inputs in [0, 1] give a final score in [0, 1]. */
  lemma FinalScoreBounds(quality: real, speed: real)
    requires 0.0 <= quality <= 1.0 && 0.0 <= speed <= 1.0
    ensures 0.0 <= ComputeFinalScore(quality, speed) <= 1.0
  {
  }

  /** Raising either input never lowers the final score. */
  lemma FinalScoreMonotone(q1: real, s1: real, q2: real, s2: real)
    requires q1 <= q2 && s1 <= s2
    ensures ComputeFinalScore(q1, s1) <= ComputeFinalScore(q2, s2)
  {
  }
}
