/** The WAV quality score of `check_wav_quality_for_azure`: a score that starts
    at 100 and moves by fixed amounts per header field, the recommendations that
    go with each penalty, and the "optimised for Azure" flag. */
module WavQuality {
  import opened WavFormat

  const BaseScore := 100
  const OptimizedThreshold := 90

  /** The advice the scorer can return. The first four go with a penalty; the
      last is the sole entry when the file cannot be analysed. */
  datatype Recommendation =
    | ReduceChannels
    | ConvertTo16Bit
    | UpsampleTo16kHz
    | DownsampleTo48kHz
    | AnalysisFailed(detail: string)
  {
    /** The text the source puts in the list. */
    function Message(): string {
      match this
      case ReduceChannels => "채널을 1-2개로 줄이세요"
      case ConvertTo16Bit => "16-bit로 변환하세요"
      case UpsampleTo16kHz => "16kHz 이상으로 업샘플링하세요"
      case DownsampleTo48kHz => "48kHz 이하로 다운샘플링하세요"
      case AnalysisFailed(detail) => "파일 분석 실패: " + detail
    }
  }

  datatype QualityReport = QualityReport(qualityScore: int, recommendations: seq<Recommendation>, azureOptimized: bool)

  /** Score changes per field: more than two channels costs 20, mono earns 10. */
  function ChannelAdjustment(channels: nat): int {
    if channels > 2 then -20 else if channels == 1 then 10 else 0
  }

  /** Anything but 16-bit (two-byte) samples costs 30. */
  function SampleWidthAdjustment(sampleWidth: nat): int {
    if sampleWidth != 2 then -30 else 0
  }

  /** Below 16 kHz costs 25, exactly 16 kHz earns 15, above 48 kHz costs 10. */
  function FrameRateAdjustment(frameRate: nat): int {
    if frameRate < 16000 then -25
    else if frameRate == 16000 then 15
    else if frameRate > 48000 then -10
    else 0
  }

  /** The score before clamping at zero. */
  function RawScore(p: WavParams): int {
    BaseScore + ChannelAdjustment(p.channels) + SampleWidthAdjustment(p.sampleWidth) + FrameRateAdjustment(p.frameRate)
  }

  /** The header condition under which the scorer gives a recommendation. */
  predicate Applies(rec: Recommendation, p: WavParams) {
    match rec
    case ReduceChannels => p.channels > 2
    case ConvertTo16Bit => p.sampleWidth != 2
    case UpsampleTo16kHz => p.frameRate < 16000
    case DownsampleTo48kHz => p.frameRate > 48000
    case AnalysisFailed(_) => false
  }

  /** The order in which the scorer examines the fields. */
  const CheckOrder: seq<Recommendation> := [ReduceChannels, ConvertTo16Bit, UpsampleTo16kHz, DownsampleTo48kHz]

  /** Position of a penalty recommendation in `CheckOrder`. */
  function Rank(rec: Recommendation): nat {
    match rec
    case ReduceChannels => 0
    case ConvertTo16Bit => 1
    case UpsampleTo16kHz => 2
    case DownsampleTo48kHz => 3
    case AnalysisFailed(_) => 4
  }

  /** The elements of `recs` that apply to `p`, in their order. */
  function Applicable(recs: seq<Recommendation>, p: WavParams): seq<Recommendation> {
    if recs == [] then []
    else (if Applies(recs[0], p) then [recs[0]] else []) + Applicable(recs[1..], p)
  }

  /** Unfolds the filter over the four checks: one optional entry per check. */
  lemma ApplicableInCheckOrder(p: WavParams)
    ensures Applicable(CheckOrder, p)
         == (if p.channels > 2 then [ReduceChannels] else [])
          + (if p.sampleWidth != 2 then [ConvertTo16Bit] else [])
          + (if p.frameRate < 16000 then [UpsampleTo16kHz] else [])
          + (if p.frameRate > 48000 then [DownsampleTo48kHz] else [])
  {
    var s := CheckOrder;
    assert s[1..] == [ConvertTo16Bit, UpsampleTo16kHz, DownsampleTo48kHz];
    assert s[1..][1..] == [UpsampleTo16kHz, DownsampleTo48kHz];
    assert s[1..][1..][1..] == [DownsampleTo48kHz];
    assert s[1..][1..][1..][1..] == [];
    var down := if p.frameRate > 48000 then [DownsampleTo48kHz] else [];
    var up := if p.frameRate < 16000 then [UpsampleTo16kHz] else [];
    var width := if p.sampleWidth != 2 then [ConvertTo16Bit] else [];
    var chans := if p.channels > 2 then [ReduceChannels] else [];
    assert Applicable(s[1..][1..][1..], p) == down + Applicable([], p) == down;
    assert Applicable(s[1..][1..], p) == up + down;
    assert Applicable(s[1..], p) == width + (up + down);
    assert Applicable(s, p) == chans + (width + (up + down));
  }

  lemma ScoreRange(p: WavParams)
    ensures 25 <= RawScore(p) <= 125
    ensures RawScore(p) == 125 <==> p.channels == 1 && p.sampleWidth == 2 && p.frameRate == 16000
  {
  }

  /** A recommendation is given exactly when its field is penalised. */
  lemma RecommendationsFollowPenalties(p: WavParams)
    ensures ReduceChannels in Applicable(CheckOrder, p) <==> ChannelAdjustment(p.channels) < 0
    ensures ConvertTo16Bit in Applicable(CheckOrder, p) <==> SampleWidthAdjustment(p.sampleWidth) < 0
    ensures (UpsampleTo16kHz in Applicable(CheckOrder, p) || DownsampleTo48kHz in Applicable(CheckOrder, p))
        <==> FrameRateAdjustment(p.frameRate) < 0
  {
    ApplicableInCheckOrder(p);
  }

  /** Nothing to fix means no penalty, so the score is at least 100; a
      penalty outweighs every bonus, so with something to fix it is at most 100. */
  lemma RecommendationsBoundScore(p: WavParams)
    ensures Applicable(CheckOrder, p) == [] ==> RawScore(p) >= BaseScore
    ensures Applicable(CheckOrder, p) != [] ==> RawScore(p) <= BaseScore
  {
    ApplicableInCheckOrder(p);
  }

  /** At most one recommendation per field, in check order. */
  lemma RecommendationsInOrder(p: WavParams)
    ensures |Applicable(CheckOrder, p)| <= 3
    ensures forall i, j :: 0 <= i < j < |Applicable(CheckOrder, p)| ==>
      Rank(Applicable(CheckOrder, p)[i]) < Rank(Applicable(CheckOrder, p)[j])
  {
    ApplicableInCheckOrder(p);
    var chans := if p.channels > 2 then [ReduceChannels] else [];
    var width := if p.sampleWidth != 2 then [ConvertTo16Bit] else [];
    var rate := if p.frameRate < 16000 then [UpsampleTo16kHz] else if p.frameRate > 48000 then [DownsampleTo48kHz] else [];
    assert (if p.frameRate < 16000 then [UpsampleTo16kHz] else []) + (if p.frameRate > 48000 then [DownsampleTo48kHz] else []) == rate;
    var recs := Applicable(CheckOrder, p);
    assert recs == chans + width + rate;
    assert forall x :: x in chans ==> Rank(x) == 0;
    assert forall x :: x in width ==> Rank(x) == 1;
    assert forall x :: x in rate ==> Rank(x) >= 2;
  }

  /** The report `check_wav_quality_for_azure` returns, described field by
      field: the clamped sum of the adjustments, the applicable
      recommendations in check order, and the threshold test. */
  function QualityOf(header: HeaderRead): (r: QualityReport)
    // the score starts at 100 and the fixed adjustments keep it in [25, 125],
    // so the clamp at zero never engages
    ensures header.Parsed? ==> 25 <= r.qualityScore <= 125 && r.qualityScore == RawScore(header.params)
    // mono, 16-bit, 16 kHz is the only way to reach the top score
    ensures header.Parsed? ==> (r.qualityScore == 125 <==> header.params.channels == 1 && header.params.sampleWidth == 2 && header.params.frameRate == 16000)
    ensures r.azureOptimized <==> r.qualityScore >= OptimizedThreshold
    // a recommendation appears exactly when its field was penalised
    ensures header.Parsed? ==>
      && (ReduceChannels in r.recommendations <==> ChannelAdjustment(header.params.channels) < 0)
      && (ConvertTo16Bit in r.recommendations <==> SampleWidthAdjustment(header.params.sampleWidth) < 0)
      && ((UpsampleTo16kHz in r.recommendations || DownsampleTo48kHz in r.recommendations) <==> FrameRateAdjustment(header.params.frameRate) < 0)
    // a file with nothing to fix scores at least 100, one with something to fix at most 100
    ensures header.Parsed? ==> (r.recommendations == [] ==> r.qualityScore >= BaseScore)
    ensures header.Parsed? ==> (r.recommendations != [] ==> r.qualityScore <= BaseScore)
    // at most one per field, in the order channels, sample width, frame rate
    ensures header.Parsed? ==> |r.recommendations| <= 3
    ensures header.Parsed? ==> forall i, j :: 0 <= i < j < |r.recommendations| ==> Rank(r.recommendations[i]) < Rank(r.recommendations[j])
    ensures header.Unreadable? ==> r == QualityReport(0, [AnalysisFailed(header.message)], false)
  {
    match header
    case Unreadable(message) => QualityReport(0, [AnalysisFailed(message)], false)
    case Parsed(p) =>
      var raw := RawScore(p);
      var recs := Applicable(CheckOrder, p);
      ScoreRange(p);
      RecommendationsFollowPenalties(p);
      RecommendationsBoundScore(p);
      RecommendationsInOrder(p);
      QualityReport(if raw > 0 then raw else 0, recs, raw >= OptimizedThreshold)
  }

  /** `check_wav_quality_for_azure`, written as the source runs it: a score
      and a list updated check by check. */
  method CheckWavQualityForAzure(header: HeaderRead) returns (report: QualityReport)
    ensures report == QualityOf(header)
  {
    if header.Unreadable? {
      return QualityReport(0, [AnalysisFailed(header.message)], false);
    }
    var params := header.params;
    var qualityScore := 100;
    var recommendations: seq<Recommendation> := [];

    if params.channels > 2 {
      qualityScore := qualityScore - 20;
      recommendations := recommendations + [ReduceChannels];
    } else if params.channels == 1 {
      qualityScore := qualityScore + 10;
    }
    assert qualityScore == BaseScore + ChannelAdjustment(params.channels);
    assert recommendations == if params.channels > 2 then [ReduceChannels] else [];

    if params.sampleWidth != 2 {
      qualityScore := qualityScore - 30;
      recommendations := recommendations + [ConvertTo16Bit];
    }
    assert qualityScore == BaseScore + ChannelAdjustment(params.channels) + SampleWidthAdjustment(params.sampleWidth);

    if params.frameRate < 16000 {
      qualityScore := qualityScore - 25;
      recommendations := recommendations + [UpsampleTo16kHz];
    } else if params.frameRate == 16000 {
      qualityScore := qualityScore + 15;
    } else if params.frameRate > 48000 {
      qualityScore := qualityScore - 10;
      recommendations := recommendations + [DownsampleTo48kHz];
    }

    assert qualityScore == RawScore(params);
    ApplicableInCheckOrder(params);
    assert recommendations == Applicable(CheckOrder, params);
    report := QualityReport(if qualityScore > 0 then qualityScore else 0, recommendations, qualityScore >= 90);
  }

  /** Being optimised does not mean nothing is recommended: mono, 8-bit,
      16 kHz scores 95 and still asks for 16-bit samples, whatever its length. */
  lemma OptimizedWithRecommendation(frames: nat)
    ensures QualityOf(Parsed(WavParams(1, 1, 16000, frames))) == QualityReport(95, [ConvertTo16Bit], true)
  {
    ApplicableInCheckOrder(WavParams(1, 1, 16000, frames));
  }

  /** A bonus does not make a file optimised: mono, 16-bit, 8 kHz scores 85. */
  lemma MonoBelowThresholdAt8kHz(frames: nat)
    ensures QualityOf(Parsed(WavParams(1, 2, 8000, frames))) == QualityReport(85, [UpsampleTo16kHz], false)
  {
    ApplicableInCheckOrder(WavParams(1, 2, 8000, frames));
  }

  /** The lowest score, 25, is reached exactly by more than two channels,
      a sample width other than two bytes and a rate below 16 kHz. */
  lemma WorstScore(p: WavParams)
    ensures QualityOf(Parsed(p)).qualityScore == 25 <==> p.channels > 2 && p.sampleWidth != 2 && p.frameRate < 16000
  {
  }
}
