/** The command-line preset handling of the refacer's main: debug implies
    verbose, conflicting preset switches fall back to the default face, and each
    preset overwrites the random-range, control-point and scaling parameters.
    Also the check applied to a B-spline read back for reuse. */
module RefacerPresets {
  import opened Common

  /** The preset switches given on the command line. */
  datatype Presets = Presets(defaultFace: bool, birdFace: bool, babyFace: bool,
                             reuseBSpline: bool, setMersenneSeed: bool)

  /** The B-spline parameters a preset controls. */
  datatype Parameters = Parameters(maxRandom: int, minRandom: int, controlPoints: int, scaleDistanceMap: real)

  const DefaultFaceParameters := Parameters(5, -5, 25, 0.05)
  const BirdFaceParameters := Parameters(5, -3, 24, 0.05)
  const BabyFaceParameters := Parameters(0, -8, 22, 0.05)
  /** The seeded preset uses the default range and control points, so a given
      seed reproduces the same B-spline. */
  const MersenneSeedParameters := Parameters(5, -5, 25, 0.05)

  function Count(b: bool): nat {
    if b then 1 else 0
  }

  /** How many of the five switches are on. */
  function SwitchesOn(p: Presets): nat {
    Count(p.defaultFace) + Count(p.birdFace) + Count(p.babyFace) + Count(p.reuseBSpline) + Count(p.setMersenneSeed)
  }

  /** The switches after conflict resolution: with more than one on, reuse, bird
      and baby are cleared and default is set; the seed switch is kept. */
  function ResolvedPresets(p: Presets): Presets {
    if SwitchesOn(p) > 1 then Presets(true, false, false, false, p.setMersenneSeed) else p
  }

  /** The parameters after the presets are applied: the seeded preset wins over
      baby, baby over bird, bird over default; without a preset the user's
      values stay. */
  function PresetParameters(p: Presets, user: Parameters): Parameters {
    if p.setMersenneSeed then MersenneSeedParameters
    else if p.babyFace then BabyFaceParameters
    else if p.birdFace then BirdFaceParameters
    else if p.defaultFace then DefaultFaceParameters
    else user
  }

  /** After resolution at most one of the four face and reuse switches is on,
      the seed switch is unchanged, and a single switch is left alone. */
  lemma ResolutionProperties(p: Presets)
    ensures var r := ResolvedPresets(p);
      Count(r.defaultFace) + Count(r.birdFace) + Count(r.babyFace) + Count(r.reuseBSpline) <= 1 &&
      r.setMersenneSeed == p.setMersenneSeed &&
      (SwitchesOn(p) <= 1 ==> r == p) &&
      (SwitchesOn(p) > 1 ==> r.defaultFace && !r.reuseBSpline)
  {
  }

  /** Every preset gives a random range with minimum not above maximum; the
      seeded and the default preset agree; without a preset the user's values
      stay. */
  lemma PresetParametersProperties(p: Presets, user: Parameters)
    ensures (p.defaultFace || p.birdFace || p.babyFace || p.setMersenneSeed) ==>
      PresetParameters(p, user).minRandom <= PresetParameters(p, user).maxRandom &&
      PresetParameters(p, user).scaleDistanceMap == 0.05
    ensures !(p.defaultFace || p.birdFace || p.babyFace || p.setMersenneSeed) ==> PresetParameters(p, user) == user
    ensures MersenneSeedParameters == DefaultFaceParameters
  {
  }

  /** The options main works with after preset handling. */
  datatype Options = Options(verbose: bool, presets: Presets, parameters: Parameters, tooManyPresets: bool)

  /** main's preset handling, assignment by assignment: forces verbose under
      debug, resolves conflicting switches (reporting them), then applies the
      default, bird, baby and seeded tables in turn. */
  method ResolveOptions(debug: bool, verbose: bool, presets: Presets, user: Parameters) returns (o: Options)
    ensures o.verbose == (verbose || debug)
    ensures o.tooManyPresets <==> SwitchesOn(presets) > 1
    ensures o.presets == ResolvedPresets(presets)
    ensures o.parameters == PresetParameters(ResolvedPresets(presets), user)
  {
    var verboseOut := verbose;
    if debug {
      verboseOut := true;
    }
    var defaultFace, birdFace, babyFace, reuseBSpline := presets.defaultFace, presets.birdFace, presets.babyFace, presets.reuseBSpline;
    var sumOptions := Count(defaultFace) + Count(birdFace) + Count(babyFace) + Count(reuseBSpline) + Count(presets.setMersenneSeed);
    var tooMany := false;
    if sumOptions > 1 {
      tooMany := true;
      reuseBSpline := false;
      birdFace := false;
      babyFace := false;
      defaultFace := true;
    }
    var maxRandom, minRandom, controlPoints, scale := user.maxRandom, user.minRandom, user.controlPoints, user.scaleDistanceMap;
    if defaultFace {
      maxRandom, minRandom, controlPoints, scale := 5, -5, 25, 0.05;
    }
    if birdFace {
      maxRandom, minRandom, controlPoints, scale := 5, -3, 24, 0.05;
    }
    if babyFace {
      maxRandom, minRandom, controlPoints, scale := 0, -8, 22, 0.05;
    }
    if presets.setMersenneSeed {
      maxRandom, minRandom, controlPoints, scale := 5, -5, 25, 0.05;
    }
    o := Options(verboseOut, Presets(defaultFace, birdFace, babyFace, reuseBSpline, presets.setMersenneSeed),
                 Parameters(maxRandom, minRandom, controlPoints, scale), tooMany);
  }

  // ---------------------------------------------------------------------------
  // Reusing a B-spline

  /** Why a reused B-spline is refused. */
  datatype ReuseFailure = TransformFileUnreadable | NotABSpline(className: string)

  /** The class name a reusable transform must have. */
  const BSplineClassName := "BSplineTransform"

  /** The check on the transform file read for reuse: a read error, or a first
      transform of any class other than BSplineTransform, ends main with
      EXIT_FAILURE; otherwise that transform's parameters are taken over. The
      file contents are a parameter: the class names of its transforms, or None
      when reading throws; the Ok value is the accepted class name. */
  function CheckReusedBSpline(classNames: Option<seq<string>>): (r: Result<string, ReuseFailure>)
    requires classNames.Some? ==> |classNames.value| > 0
    ensures r.Ok? <==> classNames.Some? && classNames.value[0] == BSplineClassName
    ensures r == Err(TransformFileUnreadable) <==> classNames.None?
    ensures r.Err? && r.error.NotABSpline? ==> r.error.className == classNames.value[0]
  {
    match classNames
    case None => Err(TransformFileUnreadable)
    case Some(names) =>
      if names[0] != BSplineClassName then Err(NotABSpline(names[0])) else Ok(names[0])
  }
}
