/** `validate_wav_file_only`: the upload gate of the speech path. A file is
    taken only when its name has the extension `.wav` (in any letter case), its
    temporary copy can be written and its header can be read; the format
    warnings it then shows are advisory and never reject the file. */
module WavValidation {
  import opened Wrappers
  import opened PyStr
  import opened WavFormat
  import WavQuality

  /** `os.path.splitext(file_name)[1].lower() == '.wav'`: the extension is
      four characters, a dot and the letters w, a, v in either case. */
  predicate HasWavExtension(fileName: string): (b: bool)
    ensures b <==> var ext := SplitExt(fileName).1;
      |ext| == 4 && ext[0] == '.' && ext[1] in "wW" && ext[2] in "aA" && ext[3] in "vV"
  {
    var ext := SplitExt(fileName).1;
    CaseInsensitiveWav(ext);
    Lower(ext) == ".wav"
  }

  /** `path.lower().endswith('.wav')`, the suffix test the transcriber repeats:
      the last four characters are a dot and w, a, v in either case. */
  predicate HasWavSuffix(path: string): (b: bool)
    ensures b <==> var n := |path|;
      n >= 4 && path[n - 4] == '.' && path[n - 3] in "wW" && path[n - 2] in "aA" && path[n - 1] in "vV"
  {
    var n := |path|;
    if n >= 4 then
      LowerSlice(path, n - 4);
      CaseInsensitiveWav(path[n - 4..]);
      EndsWith(Lower(path), ".wav")
    else
      EndsWith(Lower(path), ".wav")
  }

  /** Which strings lower to ".wav". */
  lemma CaseInsensitiveWav(s: string)
    ensures Lower(s) == ".wav" <==> |s| == 4 && s[0] == '.' && s[1] in "wW" && s[2] in "aA" && s[3] in "vV"
  {
    if |s| == 4 {
      var low := Lower(s);
      if low == ".wav" {
        assert low[0] == '.' && low[1] == 'w' && low[2] == 'a' && low[3] == 'v';
      }
      if s[0] == '.' && s[1] in "wW" && s[2] in "aA" && s[3] in "vV" {
        assert low[0] == '.' && low[1] == 'w' && low[2] == 'a' && low[3] == 'v';
        assert low == ".wav";
      }
    }
  }

  /** The base name in front of a four-character suffix holds a character other than a dot. */
  predicate HasStem(name: string) {
    && |name| >= 4
    && RFind(name, '/') < |name| - 4
    && HasNonDot(name, RFind(name, '/') + 1, |name| - 4)
  }

  lemma LowerCharFixes(c: char, d: char)
    requires d == '.' || d == '/' || 'a' <= d <= 'z'
    requires LowerChar(c) == d
    ensures d == '.' ==> c == '.'
    ensures d == '/' ==> c == '/'
    ensures 'a' <= d <= 'z' ==> c != '.' && c != '/'
  {
  }

  /** `RFind` is pinned down by its contract: the last occurrence. */
  lemma RFindIsLast(s: string, c: char, i: nat)
    requires i < |s| && s[i] == c
    requires forall k :: i < k < |s| ==> s[k] != c
    ensures RFind(s, c) == i
  {
  }

  /** A name with a `.wav` extension ends in ".wav" and has a stem. */
  lemma ExtensionGivesSuffix(name: string)
    requires HasWavExtension(name)
    ensures HasWavSuffix(name) && HasStem(name)
  {
    var sepIndex := RFind(name, '/');
    var dotIndex := RFind(name, '.');
    var ext := SplitExt(name).1;
    assert |ext| == 4;
    assert dotIndex > sepIndex && HasNonDot(name, sepIndex + 1, dotIndex);
    assert ext == name[dotIndex..];
    LowerSlice(name, |name| - 4);
  }

  /** A name ending in ".wav" with a stem has the extension `.wav`. */
  lemma SuffixGivesExtension(name: string)
    requires HasWavSuffix(name) && HasStem(name)
    ensures HasWavExtension(name)
  {
    var n := |name|;
    var low := Lower(name);
    assert low[n - 4..] == ".wav";
    assert low[n - 4] == '.' && low[n - 3] == 'w' && low[n - 2] == 'a' && low[n - 1] == 'v' by {
      assert low[n - 4..][0] == low[n - 4] && low[n - 4..][1] == low[n - 3];
      assert low[n - 4..][2] == low[n - 2] && low[n - 4..][3] == low[n - 1];
    }
    LowerCharFixes(name[n - 4], '.');
    LowerCharFixes(name[n - 3], 'w');
    LowerCharFixes(name[n - 2], 'a');
    LowerCharFixes(name[n - 1], 'v');
    RFindIsLast(name, '.', n - 4);
    assert SplitExt(name).1 == name[n - 4..];
  }

  /** The two `.wav` tests differ only on names with no stem: ".wav", "x/.wav",
      "..wav" end in ".wav" but, to `splitext`, have no extension. */
  lemma ExtensionVersusSuffix(name: string)
    ensures HasWavExtension(name) <==> HasWavSuffix(name) && HasStem(name)
  {
    if HasWavExtension(name) {
      ExtensionGivesSuffix(name);
    }
    if HasWavSuffix(name) && HasStem(name) {
      SuffixGivesExtension(name);
    }
  }

  /** An upper-case extension is accepted. */
  lemma UpperCaseExtensionAccepted()
    ensures HasWavExtension("A.WAV")
  {
    var name := "A.WAV";
    assert forall k :: 0 <= k < |name| ==> name[k] != '/';
    assert RFind(name, '/') == -1;
    assert name[0] != '.';
    assert HasNonDot(name, 0, 1);
    var lowered := Lower(name);
    assert lowered[1] == '.' && lowered[2] == 'w' && lowered[3] == 'a' && lowered[4] == 'v';
    assert lowered[1..] == ".wav";
    ExtensionVersusSuffix(name);
  }

  /** A name that is only the extension passes the suffix test but is refused. */
  lemma BareExtensionRefused()
    ensures HasWavSuffix(".wav") && !HasWavExtension(".wav")
  {
    ExtensionVersusSuffix(".wav");
  }

  /** The advisory format warnings, one per field worth changing. */
  datatype Warning = TooManyChannels | Not16BitPcm | RateBelow16kHz | RateAbove48kHz

  predicate Fires(w: Warning, p: WavParams) {
    match w
    case TooManyChannels => p.channels > 2
    case Not16BitPcm => p.sampleWidth != 2
    case RateBelow16kHz => p.frameRate < 16000
    case RateAbove48kHz => p.frameRate > 48000
  }

  predicate IsRateWarning(w: Warning) {
    w == RateBelow16kHz || w == RateAbove48kHz
  }

  /** The order in which the checks run. */
  const WarningOrder: seq<Warning> := [TooManyChannels, Not16BitPcm, RateBelow16kHz, RateAbove48kHz]

  function Firing(ws: seq<Warning>, p: WavParams): seq<Warning> {
    if ws == [] then []
    else (if Fires(ws[0], p) then [ws[0]] else []) + Firing(ws[1..], p)
  }

  lemma FiringInWarningOrder(p: WavParams)
    ensures Firing(WarningOrder, p)
         == (if p.channels > 2 then [TooManyChannels] else [])
          + (if p.sampleWidth != 2 then [Not16BitPcm] else [])
          + (if p.frameRate < 16000 then [RateBelow16kHz] else [])
          + (if p.frameRate > 48000 then [RateAbove48kHz] else [])
  {
    var s := WarningOrder;
    assert s[1..] == [Not16BitPcm, RateBelow16kHz, RateAbove48kHz];
    assert s[1..][1..] == [RateBelow16kHz, RateAbove48kHz];
    assert s[1..][1..][1..] == [RateAbove48kHz];
    assert s[1..][1..][1..][1..] == [];
    var high := if p.frameRate > 48000 then [RateAbove48kHz] else [];
    var low := if p.frameRate < 16000 then [RateBelow16kHz] else [];
    var width := if p.sampleWidth != 2 then [Not16BitPcm] else [];
    var chans := if p.channels > 2 then [TooManyChannels] else [];
    assert Firing(s[1..][1..][1..], p) == high + Firing([], p) == high;
    assert Firing(s[1..][1..], p) == low + high;
    assert Firing(s[1..], p) == width + (low + high);
    assert Firing(s, p) == chans + (width + (low + high));
  }

  /** The warnings `validate_wav_file_only` shows for a readable header: those
      that fire, in check order; at most three, and at most one about the rate. */
  function WarningsFor(p: WavParams): (r: seq<Warning>)
    ensures forall w :: w in r <==> Fires(w, p)
    ensures |r| <= 3
    ensures forall i, j :: 0 <= i < j < |r| && IsRateWarning(r[i]) ==> !IsRateWarning(r[j])
    ensures (r == []) <==> (p.channels <= 2 && p.sampleWidth == 2 && 16000 <= p.frameRate <= 48000)
  {
    FiringInWarningOrder(p);
    Firing(WarningOrder, p)
  }

  /** The optimisation warnings, appended check by check as the source does. */
  method CollectOptimizationWarnings(p: WavParams) returns (warnings: seq<Warning>)
    ensures warnings == WarningsFor(p)
  {
    warnings := [];
    if p.channels > 2 {
      warnings := warnings + [TooManyChannels];
    }
    if p.sampleWidth != 2 {
      warnings := warnings + [Not16BitPcm];
    }
    if p.frameRate < 16000 {
      warnings := warnings + [RateBelow16kHz];
    } else if p.frameRate > 48000 {
      warnings := warnings + [RateAbove48kHz];
    }
    FiringInWarningOrder(p);
  }

  /** The quality recommendation that answers a warning. */
  function Counterpart(w: Warning): WavQuality.Recommendation {
    match w
    case TooManyChannels => WavQuality.ReduceChannels
    case Not16BitPcm => WavQuality.ConvertTo16Bit
    case RateBelow16kHz => WavQuality.UpsampleTo16kHz
    case RateAbove48kHz => WavQuality.DownsampleTo48kHz
  }

  function Counterparts(ws: seq<Warning>): (r: seq<WavQuality.Recommendation>)
    ensures |r| == |ws|
  {
    if ws == [] then [] else [Counterpart(ws[0])] + Counterparts(ws[1..])
  }

  /** Filtering warnings and then translating them is translating the check
      order and then filtering recommendations: each warning fires exactly
      when its recommendation applies. */
  lemma {:induction false} FiringMirrorsApplicable(ws: seq<Warning>, p: WavParams)
    ensures Counterparts(Firing(ws, p)) == WavQuality.Applicable(Counterparts(ws), p)
  {
    if ws != [] {
      FiringMirrorsApplicable(ws[1..], p);
      var head := if Fires(ws[0], p) then [ws[0]] else [];
      CounterpartsAppend(head, Firing(ws[1..], p));
      assert Counterparts(ws)[1..] == Counterparts(ws[1..]);
    }
  }

  lemma {:induction false} CounterpartsAppend(a: seq<Warning>, b: seq<Warning>)
    ensures Counterparts(a + b) == Counterparts(a) + Counterparts(b)
  {
    if a != [] {
      assert (a + b)[1..] == a[1..] + b;
      CounterpartsAppend(a[1..], b);
    } else {
      assert a + b == b;
    }
  }

  /** The upload warnings and the quality scorer's recommendations use the same
      thresholds: each warning is answered by the recommendation at the same
      position, so a file that draws no warning scores at least 100 and one
      that draws a warning at most 100. */
  lemma WarningsMirrorRecommendations(p: WavParams)
    ensures Counterparts(WarningsFor(p)) == WavQuality.QualityOf(Parsed(p)).recommendations
    ensures WarningsFor(p) == [] ==> WavQuality.QualityOf(Parsed(p)).qualityScore >= WavQuality.BaseScore
    ensures WarningsFor(p) != [] ==> WavQuality.QualityOf(Parsed(p)).qualityScore <= WavQuality.BaseScore
  {
    FiringMirrorsApplicable(WarningOrder, p);
    assert Counterparts(WarningOrder) == WavQuality.CheckOrder;
  }

  /** `validate_wav_file_only(file_data, file_name)`. `tempFile` is the name
      `NamedTemporaryFile(suffix='.wav')` gives the copy, or None when writing
      it raised; `header` is what `wave.open` makes of that copy. The returned
      `warnings` are the ones the source displays. */
  method ValidateWavFileOnly(fileName: string, tempFile: Option<string>, header: HeaderRead)
    returns (path: Option<string>, ok: bool, warnings: seq<Warning>)
    ensures ok <==> path.Some?
    // `duration = frames / frame_rate` raises ZeroDivisionError for a zero
    // rate, which the outer handler turns into a rejection
    ensures ok <==> HasWavExtension(fileName) && tempFile.Some? && header.Parsed? && header.params.frameRate != 0
    ensures ok ==> path == tempFile && warnings == WarningsFor(header.params)
    ensures !ok ==> warnings == []
  {
    var fileExtension := Lower(SplitExt(fileName).1);
    if fileExtension != ".wav" {
      return None, false, [];
    }
    if tempFile.None? {
      return None, false, [];
    }
    var tmpFilePath := tempFile.value;
    match header {
      case Unreadable(_) =>
        return None, false, [];
      case Parsed(params) =>
        if params.frameRate == 0 {
          return None, false, [];
        }
        warnings := CollectOptimizationWarnings(params);
        return Some(tmpFilePath), true, warnings;
    }
  }
}
