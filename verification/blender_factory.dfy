/** `BlenderFactory`: blend-mode names and blender construction. `std::invalid_argument`
    becomes `Failure` with the exception's message. */
module BlenderFactory {
  import opened Wrappers
  import opened Text
  import opened Blending

  /** `stringToMode`: the lower-cased name must be one of the three known ones. */
  function StringToMode(mode: string): (r: Result<BlendMode, string>)
    ensures r.Success? <==> Lower(mode) in {"simple", "feather", "multiband"}
    ensures r.Success? ==> r.value != ExposureCompensation
    ensures r.Failure? ==> r.error == "Unknown blend mode: " + mode
  {
    var lower := Lower(mode);
    if lower == "simple" then Success(SimpleOverlay)
    else if lower == "feather" then Success(Feathering)
    else if lower == "multiband" then Success(Multiband)
    else Failure("Unknown blend mode: " + mode)
  }

  /** `modeToString`: the lower-case name of the three modes, "unknown" otherwise. */
  function ModeToString(mode: BlendMode): (s: string)
    ensures IsLower(s)
    ensures s == "unknown" <==> mode == ExposureCompensation
  {
    match mode
    case SimpleOverlay => "simple"
    case Feathering => "feather"
    case Multiband => "multiband"
    case ExposureCompensation => "unknown"
  }

  /** Every named mode survives printing and parsing. */
  lemma ModeRoundTrip(mode: BlendMode)
    requires mode != ExposureCompensation
    ensures StringToMode(ModeToString(mode)) == Success(mode)
  {
    LowerFixesLower(ModeToString(mode));
  }

  /** Every accepted name prints back as its lower-case form, so the parse is
      case-insensitive and injective on lower-case names. */
  lemma NameRoundTrip(name: string)
    requires StringToMode(name).Success?
    ensures ModeToString(StringToMode(name).value) == Lower(name)
  {
  }

  /** `createBlender(const std::string&)`: a default blender set to the parsed mode, or
      the parse failure. */
  function CreateBlenderByName(mode: string): (r: Result<Blender, string>)
    ensures r.Success? <==> StringToMode(mode).Success?
    ensures r.Success? ==> r.value.mode == StringToMode(mode).value
    ensures r.Failure? ==> r.error == StringToMode(mode).error
  {
    match StringToMode(mode)
    case Success(m) => Success(NewBlender().(mode := m))
    case Failure(e) => Failure(e)
  }

  /** `createBlender(BlendMode)`: a default blender set to the given mode. */
  function CreateBlender(mode: BlendMode): (b: Blender)
    ensures b.mode == mode
  {
    NewBlender().(mode := mode)
  }
}
