/**
 * The two rules of analysis_service.py that do not depend on a neural
 * network: which frames of a video are sampled, and what the incident
 * report counts in a list of detected labels.
 */
module Analysis {
  import opened Wrappers
  import opened Text

  // ---- frame sampling (extract_accident_frames) ----

  /**
   * A video as the capture library presents it: either it cannot be opened,
   * or it has an integral frame rate and its frames in reading order.
   */
  datatype Video<F> = Unopenable | Opened(fps: int, frames: seq<F>)

  datatype FrameError =
    | OpenFailed          // ValueError: the capture is not opened
    | ZeroDivision        // ZeroDivisionError: `% (frame_rate * 2)` with a zero frame rate
    | NoFramesExtracted   // ValueError: nothing was kept

  /** At most this many sampled frames are returned. */
  const MaxFrames: nat := 4

  /** Python's `a % b`: the remainder takes the sign of the divisor. */
  function PyMod(a: int, b: int): (r: int)
    requires b != 0
  {
    var m := a % b;
    if m != 0 && b < 0 then m + b else m
  }

  function Abs(x: int): (r: nat)
  {
    if x < 0 then -x else x
  }

  function Min(a: int, b: int): (r: int)
  {
    if a <= b then a else b
  }

  /** The frames kept by the loop: those whose 1-based position is divisible by `step`. */
  function Sampled<F>(frames: seq<F>, step: int): (r: seq<F>)
    requires step != 0
    ensures |r| <= |frames|
    ensures forall x :: x in r ==> x in frames
    ensures |frames| < Abs(step) ==> r == []
  {
    if frames == [] then []
    else
      var n := |frames|;
      Sampled(frames[..n - 1], step) + (if PyMod(n, step) == 0 then [frames[n - 1]] else [])
  }

  /** What extract_accident_frames returns or raises for a video. */
  function ExtractSpec<F>(video: Video<F>): (r: Result<seq<F>, FrameError>)
    ensures r.Ok? ==> video.Opened? && 1 <= |r.value| <= MaxFrames && |r.value| <= |video.frames|
    ensures r.Ok? ==> forall x :: x in r.value ==> x in video.frames
  {
    match video
    case Unopenable => Err(OpenFailed)
    case Opened(fps, frames) =>
      if frames == [] then Err(NoFramesExtracted)
      else if fps * 2 == 0 then Err(ZeroDivision)
      else
        var kept := Sampled(frames, fps * 2);
        if kept == [] then Err(NoFramesExtracted)
        else Ok(kept[..Min(MaxFrames, |kept|)])
  }

  /**
   * extract_accident_frames: read the frames one by one, keep each one whose
   * position is a multiple of twice the frame rate, then keep the first four.
   */
  method ExtractAccidentFrames<F>(video: Video<F>) returns (r: Result<seq<F>, FrameError>)
    ensures r == ExtractSpec(video)
  {
    if video.Unopenable? {
      return Err(OpenFailed);
    }
    var fps := video.fps;
    var frames: seq<F> := [];
    var pos := 0;
    while pos < |video.frames|
      invariant 0 <= pos <= |video.frames|
      invariant pos > 0 ==> fps * 2 != 0
      invariant pos > 0 ==> frames == Sampled(video.frames[..pos], fps * 2)
      invariant pos == 0 ==> frames == []
    {
      var frame := video.frames[pos];
      pos := pos + 1;
      if fps * 2 == 0 {
        return Err(ZeroDivision);
      }
      assert video.frames[..pos][..pos - 1] == video.frames[..pos - 1];
      if PyMod(pos, fps * 2) == 0 {
        frames := frames + [frame];
      }
    }
    assert video.frames[..pos] == video.frames;
    if frames == [] {
      return Err(NoFramesExtracted);
    }
    return Ok(frames[..Min(MaxFrames, |frames|)]);
  }

  lemma PyModZero(a: int, b: int)
    requires b != 0
    ensures PyMod(a, b) == 0 <==> a % Abs(b) == 0
  {
    assert a % b == a % Abs(b) by {
      if b < 0 {
        assert a == (a / b) * b + a % b;
        assert a == (-(a / b)) * Abs(b) + a % b;
      }
    }
  }

  /** The 1-based read positions, up to `count`, at which a frame is kept. */
  function KeptPositions(count: nat, step: int): (r: seq<nat>)
    requires step != 0
  {
    if count == 0 then []
    else KeptPositions(count - 1, step) + (if PyMod(count, step) == 0 then [count] else [])
  }

  /** A position is listed iff it is read (1..count) and divisible by the step. */
  lemma {:induction false} KeptPositionsMembers(count: nat, step: int, p: int)
    requires step != 0
    ensures p in KeptPositions(count, step) <==> 1 <= p <= count && PyMod(p, step) == 0
  {
    if count > 0 {
      KeptPositionsMembers(count - 1, step, p);
    }
  }

  /** The listed positions are strictly increasing and at most `count`. */
  lemma {:induction false} KeptPositionsIncreasing(count: nat, step: int)
    requires step != 0
    ensures forall j :: 0 <= j < |KeptPositions(count, step)| ==> 1 <= KeptPositions(count, step)[j] <= count
    ensures forall i, j :: 0 <= i < j < |KeptPositions(count, step)| ==>
      KeptPositions(count, step)[i] < KeptPositions(count, step)[j]
  {
    if count > 0 {
      KeptPositionsIncreasing(count - 1, step);
    }
  }

  /** The j-th kept frame is the frame read at the j-th kept position. */
  lemma {:induction false} SampledAtPositions<F>(frames: seq<F>, step: int)
    requires step != 0
    ensures |Sampled(frames, step)| == |KeptPositions(|frames|, step)|
    ensures forall j :: 0 <= j < |Sampled(frames, step)| ==>
      1 <= KeptPositions(|frames|, step)[j] <= |frames| &&
      Sampled(frames, step)[j] == frames[KeptPositions(|frames|, step)[j] - 1]
    decreases |frames|
  {
    if frames != [] {
      var k := |frames|;
      var init := frames[..k - 1];
      SampledAtPositions(init, step);
      KeptPositionsIncreasing(k, step);
      var s, t := Sampled(frames, step), Sampled(init, step);
      var ps, pt := KeptPositions(k, step), KeptPositions(k - 1, step);
      forall j | 0 <= j < |s|
        ensures 1 <= ps[j] <= k && s[j] == frames[ps[j] - 1]
      {
        if j < |t| {
          assert s[j] == t[j] && ps[j] == pt[j];
          assert init[pt[j] - 1] == frames[pt[j] - 1];
        }
      }
    }
  }

  /** No position before the step is a multiple of it, and the step itself is. */
  lemma FirstKeptPosition(step: int, p: int)
    requires step != 0 && 1 <= p
    ensures p < Abs(step) ==> PyMod(p, step) != 0
    ensures p == Abs(step) ==> PyMod(p, step) == 0
  {
    PyModZero(p, step);
    var n := Abs(step);
    if p < n {
      assert p == 0 * n + p;
    } else if p == n {
      assert p == 1 * n + 0;
    }
  }

  /**
   * A successful result holds the frames read at the first at most four kept
   * positions, in video order; every kept position is a multiple of the step.
   */
  lemma ExtractOkFrames<F>(video: Video<F>)
    requires ExtractSpec(video).Ok?
    ensures video.Opened? && video.fps != 0
    ensures var r := ExtractSpec(video).value;
      var ps := KeptPositions(|video.frames|, video.fps * 2);
      1 <= |r| == Min(MaxFrames, |ps|) &&
      forall j :: 0 <= j < |r| ==> 1 <= ps[j] <= |video.frames| && r[j] == video.frames[ps[j] - 1]
  {
    SampledAtPositions(video.frames, video.fps * 2);
  }

  /**
   * The errors: an unopenable video; a zero frame rate once a frame has been
   * read; nothing kept, which happens exactly when the video is empty or
   * shorter than twice its frame rate.
   */
  lemma ExtractErrors<F>(video: Video<F>)
    ensures ExtractSpec(video) == Err(OpenFailed) <==> video.Unopenable?
    ensures ExtractSpec(video) == Err(ZeroDivision) <==> video.Opened? && video.fps == 0 && video.frames != []
    ensures ExtractSpec(video) == Err(NoFramesExtracted) <==>
      video.Opened? && (video.frames == [] || (video.fps != 0 && |video.frames| < Abs(video.fps * 2)))
  {
    if video.Opened? && video.fps != 0 && video.frames != [] {
      var step, k := video.fps * 2, |video.frames|;
      if Abs(step) <= k {
        SampledAtPositions(video.frames, step);
        KeptPositionsMembers(k, step, Abs(step));
        FirstKeptPosition(step, Abs(step));
      }
    }
  }

  // ---- label counts (generate_incident_report) ----

  /** The argument of generate_incident_report: a list of label strings, or a value that is not a list. */
  datatype AnalysisInput = LabelList(labels: seq<string>) | NotAList

  datatype ReportError =
    | InvalidFormat   // ValueError: the argument is not a list
    | TimeNotDefined  // NameError: `time` is used but never imported

  /** The computed fields of the report dictionary. */
  datatype ReportCounts = ReportCounts(vehicles: nat, smoke: bool)

  /** A label counted as a vehicle: it contains "car" or "truck" as a substring. */
  predicate IsVehicleLabel(x: string)
  {
    Contains(x, "car") || Contains(x, "truck")
  }

  /** `[x for x in labels if "car" in x or "truck" in x]` */
  function VehicleLabels(labels: seq<string>): (r: seq<string>)
    ensures |r| <= |labels|
    ensures forall x :: x in r ==> IsVehicleLabel(x)
  {
    if labels == [] then []
    else
      var n := |labels|;
      VehicleLabels(labels[..n - 1]) + (if IsVehicleLabel(labels[n - 1]) then [labels[n - 1]] else [])
  }

  /** The positions of the labels that are counted as vehicles. */
  function VehicleIndices(labels: seq<string>): (r: set<nat>)
  {
    set i: nat | i < |labels| && IsVehicleLabel(labels[i])
  }

  /** `"smoke" in analysis_results`: exact list membership, not a substring test. */
  predicate HasSmoke(labels: seq<string>)
    ensures HasSmoke(labels) <==> exists i :: 0 <= i < |labels| && labels[i] == "smoke"
  {
    "smoke" in labels
  }

  /** The vehicle count is the number of positions holding a vehicle label. */
  lemma {:induction false} VehicleCountIsIndexCount(labels: seq<string>)
    ensures |VehicleLabels(labels)| == |VehicleIndices(labels)|
    ensures |VehicleLabels(labels)| <= |labels|
    decreases |labels|
  {
    if labels != [] {
      var n := |labels|;
      var init := labels[..n - 1];
      VehicleCountIsIndexCount(init);
      var old_ := VehicleIndices(init);
      if IsVehicleLabel(labels[n - 1]) {
        assert VehicleIndices(labels) == old_ + {n - 1};
        assert n - 1 !in old_;
      } else {
        assert VehicleIndices(labels) == old_;
      }
    } else {
      assert VehicleIndices(labels) == {};
    }
  }

  /** Every counted label is a vehicle label of the input, and every vehicle label of the input is counted. */
  lemma {:induction false} VehicleLabelsMembers(labels: seq<string>, x: string)
    ensures x in VehicleLabels(labels) <==> x in labels && IsVehicleLabel(x)
    decreases |labels|
  {
    if labels != [] {
      var n := |labels|;
      VehicleLabelsMembers(labels[..n - 1], x);
      assert labels == labels[..n - 1] + [labels[n - 1]];
    }
  }

  /** Substring matching counts "scar" as a vehicle; exact membership misses "heavy smoke". */
  lemma MatchingExamples()
    ensures IsVehicleLabel("scar")
    ensures !HasSmoke(["heavy smoke"]) && HasSmoke(["car", "smoke"])
  {
    ContainsAt("scar", "car", 1);
  }

  /** generate_incident_report as written: `time` is not imported, so every list raises NameError. */
  function GenerateIncidentReport(input: AnalysisInput): (r: Result<string, ReportError>)
    ensures input.NotAList? ==> r == Err(InvalidFormat)
  {
    match input
    case NotAList => Err(InvalidFormat)
    case LabelList(labels) =>
      Err(TimeNotDefined)
  }

  /** No input yields a report: the format check fails or the missing import does. */
  lemma GenerateIncidentReportNeverSucceeds(input: AnalysisInput)
    ensures GenerateIncidentReport(input).Err?
    ensures input.LabelList? ==> GenerateIncidentReport(input) == Err(TimeNotDefined)
  {
  }

  /** generate_incident_report with `time` imported, reduced to its validation and its counted fields. */
  function ReportFields(input: AnalysisInput): (r: Result<ReportCounts, ReportError>)
    ensures r.Err? <==> input.NotAList?
    ensures r.Err? ==> r.error == InvalidFormat
    ensures input.LabelList? ==> r.Ok? && r.value.vehicles <= |input.labels|
    ensures input.LabelList? ==> (r.Ok? && (r.value.smoke <==> exists i :: 0 <= i < |input.labels| && input.labels[i] == "smoke"))
  {
    match input
    case NotAList => Err(InvalidFormat)
    case LabelList(labels) =>
      VehicleCountIsIndexCount(labels);
      Ok(ReportCounts(|VehicleLabels(labels)|, HasSmoke(labels)))
  }

  /** The corrected report counts exactly the positions holding a label with "car" or "truck". */
  lemma ReportFieldsVehicles(labels: seq<string>)
    ensures ReportFields(LabelList(labels)).value.vehicles ==
      |set i: nat | i < |labels| && (Contains(labels[i], "car") || Contains(labels[i], "truck"))|
  {
    VehicleCountIsIndexCount(labels);
    assert VehicleIndices(labels) ==
      set i: nat | i < |labels| && (Contains(labels[i], "car") || Contains(labels[i], "truck"));
  }
}
