/** The decision logic of the constellation detector's GenerateData: the
    background fill value, the per-landmark search radii, and the check that the
    eyes of the aligned landmarks lie where they are expected relative to the AC
    point. The landmark detection, the resampling and the image writers are
    parameters or left out. */
module ConstellationDetector {
  import opened Common

  /** The errors GenerateData can raise in the modelled part. */
  datatype Error = FillValueNotAnInteger(text: string)

  // ---------------------------------------------------------------------------
  // Background fill value

  const ShortMin: int := -32768
  const ShortMax: int := 32767

  /** Conversion of an int to a 16-bit short: two's-complement wrap-around. */
  function ToShort(v: int): (s: int)
    ensures ShortMin <= s <= ShortMax
    ensures ShortMin <= v <= ShortMax ==> s == v
    ensures (s - v) % 65536 == 0
  {
    (v - ShortMin) % 65536 + ShortMin
  }

  /** The fill value: "BIGNEG" is the most negative short; any other text is
      parsed as a decimal integer (the parse is a parameter that yields None where
      it would throw) and stored in a short. */
  function BackgroundFillValue(text: string, stoi: string -> Option<int>): (r: Result<int, Error>)
    ensures text == "BIGNEG" ==> r == Ok(ShortMin)
    ensures text != "BIGNEG" && stoi(text).None? ==> r == Err(FillValueNotAnInteger(text))
    ensures text != "BIGNEG" && stoi(text).Some? ==> r.Ok? && (r.value - stoi(text).value) % 65536 == 0
    ensures r.Ok? ==> ShortMin <= r.value <= ShortMax
  {
    if text == "BIGNEG" then Ok(ShortMin)
    else match stoi(text)
      case None => Err(FillValueNotAnInteger(text))
      case Some(v) => Ok(ToShort(v))
  }

  /** A parsed value already in the range of a short is kept as it is. */
  lemma FillValueInShortRange(text: string, stoi: string -> Option<int>)
    requires text != "BIGNEG" && stoi(text).Some? && ShortMin <= stoi(text).value <= ShortMax
    ensures BackgroundFillValue(text, stoi) == Ok(stoi(text).value)
  {
  }

  // ---------------------------------------------------------------------------
  // Search radii

  /** The radii of the four landmarks searched: RP, AC, PC and VN4, in mm. */
  datatype Radii = Radii(rp: real, ac: real, pc: real, vn4: real)

  /** A user radius that is not positive means "use the model's radius". */
  function ChooseRadius(user: real, model: real): (r: real)
    ensures user <= 0.0 ==> r == model
    ensures user > 0.0 ==> r == user
    ensures r > 0.0 <==> (user > 0.0 || model > 0.0)
  {
    if user <= 0.0 then model else user
  }

  /** The template radii: each landmark's user radius overrides the model's
      unless it is not positive. */
  function TemplateRadii(user: Radii, model: Radii): (r: Radii)
    ensures r.rp == ChooseRadius(user.rp, model.rp) && r.ac == ChooseRadius(user.ac, model.ac)
    ensures r.pc == ChooseRadius(user.pc, model.pc) && r.vn4 == ChooseRadius(user.vn4, model.vn4)
  {
    Radii(ChooseRadius(user.rp, model.rp), ChooseRadius(user.ac, model.ac),
          ChooseRadius(user.pc, model.pc), ChooseRadius(user.vn4, model.vn4))
  }

  /** The default overrides (-1 each) keep the model's radii; and once the
      model has been updated with the template radii, choosing again with the
      same user values changes nothing. */
  lemma TemplateRadiiProperties(user: Radii, model: Radii)
    ensures TemplateRadii(Radii(-1.0, -1.0, -1.0, -1.0), model) == model
    ensures TemplateRadii(user, TemplateRadii(user, model)) == TemplateRadii(user, model)
    ensures (model.rp > 0.0 && model.ac > 0.0 && model.pc > 0.0 && model.vn4 > 0.0) ==>
      var r := TemplateRadii(user, model);
      r.rp > 0.0 && r.ac > 0.0 && r.pc > 0.0 && r.vn4 > 0.0
  {
  }

  // ---------------------------------------------------------------------------
  // Eye position check

  /** The expected left-right distance of each eye from the AC point, in mm. */
  const EyeRangeLow: real := 15.0
  const EyeRangeHigh: real := 45.0

  /** The failure test on the aligned left and right eye, as written: LE's x
      outside [15, 45], RE's x outside [-45, -15], or either eye above the AC
      point. */
  predicate EyeFailure(le: Point3, re: Point3) {
    le.x < EyeRangeLow || le.x > EyeRangeHigh ||
    re.x > -EyeRangeLow || re.x < -EyeRangeHigh ||
    le.z > 0.0 || re.z > 0.0
  }

  /** Where the eyes are expected: the left eye 15..45 mm to the left, the right
      eye 15..45 mm to the right, both not above the AC point. */
  predicate EyesWhereExpected(le: Point3, re: Point3) {
    EyeRangeLow <= le.x <= EyeRangeHigh && -EyeRangeHigh <= re.x <= -EyeRangeLow &&
    le.z <= 0.0 && re.z <= 0.0
  }

  /** The failure test is exactly the negation of the expected placement. */
  lemma EyeFailureIsOutOfPlace(le: Point3, re: Point3)
    ensures EyeFailure(le, re) <==> !EyesWhereExpected(le, re)
  {
  }

  /** The two failure messages. */
  datatype FailureMessage =
    | EyesAboveAC
    | EyesOutOfRange(leX: real, reX: real)

  /** The message written with the manual-fix files: the "eyes lower than AC"
      text when either eye is above AC, the range text (with both x values)
      otherwise. */
  function EyeFailureMessage(le: Point3, re: Point3): (m: FailureMessage)
    requires EyeFailure(le, re)
    ensures m == EyesAboveAC <==> (le.z > 0.0 || re.z > 0.0)
    ensures m.EyesOutOfRange? ==>
      m.leX == le.x && m.reX == re.x &&
      !(EyeRangeLow <= le.x <= EyeRangeHigh && -EyeRangeHigh <= re.x <= -EyeRangeLow)
  {
    if le.z > 0.0 || re.z > 0.0 then EyesAboveAC else EyesOutOfRange(le.x, re.x)
  }

  /** Reading a landmark through the map's subscript operator: a missing name
      reads as the zero point. */
  function Landmark(points: map<string, Point3>, name: string): Point3 {
    if name in points then points[name] else Point3(0.0, 0.0, 0.0)
  }

  /** The subscript operator also inserts each missing name it reads, with the
      zero point. */
  function Touch(points: map<string, Point3>, names: set<string>): (r: map<string, Point3>)
    ensures r.Keys == points.Keys + names
    ensures forall n :: n in r ==> r[n] == Landmark(points, n)
  {
    map n | n in points.Keys + names :: Landmark(points, n)
  }

  /** Without both eyes among the aligned landmarks the check fails: a missing
      left eye reads as x = 0, below 15. */
  lemma MissingEyeFails(points: map<string, Point3>)
    requires "LE" !in points
    ensures EyeFailure(Landmark(points, "LE"), Landmark(points, "RE"))
  {
  }

  // ---------------------------------------------------------------------------
  // The filter

  /** The landmarks read for the eye check, and those read for the branded
      image. */
  const EyeNames: set<string> := {"LE", "RE"}
  const BrandedNames: set<string> := {"RP", "AC", "PC", "VN4", "CM"}

  /** The decisions of one GenerateData run that the model follows. */
  datatype RunReport = RunReport(fillValue: int, templateRadii: Radii,
                                 manualFix: Option<FailureMessage>, brandedImage: bool)

  class Detector {
    var mspQualityLevel: int
    var otsuPercentileThreshold: real
    var acLowerBound: real
    var cutOutHeadInOutputVolume: bool
    var rescaleIntensities: bool
    var trimRescaledIntensities: real
    var rescaleIntensitiesOutputRange: seq<int>
    var backgroundFillValueString: string
    var interpolationMode: string
    var houghEyeFailure: bool
    /** The user's radius overrides for RP (named MPJ), AC, PC and VN4. */
    var radii: Radii
    var debug: bool
    var verbose: bool
    var writeDebuggingImagesLevel: int
    var writeBranded2DImage: string
    var resultsDir: string
    /** The landmarks in ACPC-aligned space. */
    var alignedPoints: map<string, Point3>

    constructor ()
      ensures mspQualityLevel == 2 && otsuPercentileThreshold == 0.01 && acLowerBound == 1000.0
      ensures !cutOutHeadInOutputVolume && !rescaleIntensities && trimRescaledIntensities == 4.4172
      ensures rescaleIntensitiesOutputRange == [40, 4000]
      ensures backgroundFillValueString == "0" && interpolationMode == "Linear"
      ensures !houghEyeFailure && radii == Radii(-1.0, -1.0, -1.0, -1.0)
      ensures !debug && !verbose && writeDebuggingImagesLevel == 0
      ensures writeBranded2DImage == "" && resultsDir == "./" && alignedPoints == map[]
    {
      mspQualityLevel := 2;
      otsuPercentileThreshold := 0.01;
      acLowerBound := 1000.0;
      cutOutHeadInOutputVolume := false;
      rescaleIntensities := false;
      trimRescaledIntensities := 4.4172;
      rescaleIntensitiesOutputRange := [40, 4000];
      backgroundFillValueString := "0";
      interpolationMode := "Linear";
      houghEyeFailure := false;
      radii := Radii(-1.0, -1.0, -1.0, -1.0);
      debug := false;
      verbose := false;
      writeDebuggingImagesLevel := 0;
      writeBranded2DImage := "";
      resultsDir := "./";
      alignedPoints := map[];
    }

    /** GenerateData, its decisions only: parses the fill value (a parse failure
        propagates before anything else happens), chooses the template radii
        against the model's, takes the aligned landmarks from the detector,
        decides the manual-fix report from the eyes, and writes the branded image
        exactly when its file name is not empty. Every landmark read through the
        subscript operator is left in the aligned map. */
    method GenerateData(stoi: string -> Option<int>, modelRadii: Radii, detected: map<string, Point3>)
      returns (r: Result<RunReport, Error>)
      modifies this`alignedPoints
      ensures BackgroundFillValue(backgroundFillValueString, stoi).Err? ==>
        r == Err(BackgroundFillValue(backgroundFillValueString, stoi).error) && alignedPoints == old(alignedPoints)
      ensures BackgroundFillValue(backgroundFillValueString, stoi).Ok? ==>
        (r.Ok? && r.value.fillValue == BackgroundFillValue(backgroundFillValueString, stoi).value &&
         r.value.templateRadii == TemplateRadii(radii, modelRadii))
      ensures r.Ok? ==> var le, re := Landmark(detected, "LE"), Landmark(detected, "RE");
        (r.value.manualFix.Some? <==> EyeFailure(le, re)) &&
        (r.value.manualFix.Some? ==> r.value.manualFix.value == EyeFailureMessage(le, re))
      ensures r.Ok? ==> (r.value.brandedImage <==> writeBranded2DImage != "")
      ensures r.Ok? ==>
        alignedPoints == Touch(detected, if writeBranded2DImage != "" then EyeNames + BrandedNames else EyeNames)
    {
      var fill := BackgroundFillValue(backgroundFillValueString, stoi);
      if fill.Err? {
        return Err(fill.error);
      }
      var templateRadii := TemplateRadii(radii, modelRadii);
      alignedPoints := detected;
      var le := Landmark(alignedPoints, "LE");
      var re := Landmark(alignedPoints, "RE");
      alignedPoints := Touch(alignedPoints, EyeNames);
      var manualFix := None;
      if EyeFailure(le, re) {
        manualFix := Some(EyeFailureMessage(le, re));
      }
      var branded := false;
      if writeBranded2DImage != "" {
        alignedPoints := Touch(alignedPoints, BrandedNames);
        assert alignedPoints == Touch(detected, EyeNames + BrandedNames);
        branded := true;
      }
      r := Ok(RunReport(fill.value, templateRadii, manualFix, branded));
    }
  }
}
