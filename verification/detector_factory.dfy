/** `DetectorFactory`: detector names and detector construction. The enumeration follows
    the definitions, which use ORB, AKAZE and SIFT; `Unlisted` stands for a value cast
    from outside the enumerators, which reaches the `default` branches. */
module DetectorFactory {
  import opened Wrappers
  import opened Text

  datatype DetectorType = Orb | Akaze | Sift | Unlisted

  /** The detector object `createDetector` constructs. */
  datatype Detector = ORBDetector | AKAZEDetector | SIFTDetector

  /** `stringToType`: the lower-cased name must be "orb", "akaze" or "sift". */
  function StringToType(name: string): (r: Result<DetectorType, string>)
    ensures r.Success? <==> Lower(name) in {"orb", "akaze", "sift"}
    ensures r.Success? ==> r.value != Unlisted
    ensures r.Failure? ==> r.error == "Unknown detector type: " + name
  {
    var lower := Lower(name);
    if lower == "orb" then Success(Orb)
    else if lower == "akaze" then Success(Akaze)
    else if lower == "sift" then Success(Sift)
    else Failure("Unknown detector type: " + name)
  }

  /** `typeToString`: the lower-case name, "unknown" for an unlisted value. */
  function TypeToString(t: DetectorType): (s: string)
    ensures IsLower(s)
    ensures s == "unknown" <==> t == Unlisted
  {
    match t
    case Orb => "orb"
    case Akaze => "akaze"
    case Sift => "sift"
    case Unlisted => "unknown"
  }

  lemma TypeRoundTrip(t: DetectorType)
    requires t != Unlisted
    ensures StringToType(TypeToString(t)) == Success(t)
  {
    LowerFixesLower(TypeToString(t));
  }

  lemma DetectorNameRoundTrip(name: string)
    requires StringToType(name).Success?
    ensures TypeToString(StringToType(name).value) == Lower(name)
  {
  }

  /** `createDetector(DetectorType)`: one detector per listed type; an unlisted value
      throws. */
  function CreateDetector(t: DetectorType): (r: Result<Detector, string>)
    ensures r.Failure? <==> t == Unlisted
    ensures t == Orb ==> r == Success(ORBDetector)
    ensures t == Akaze ==> r == Success(AKAZEDetector)
    ensures t == Sift ==> r == Success(SIFTDetector)
  {
    match t
    case Orb => Success(ORBDetector)
    case Akaze => Success(AKAZEDetector)
    case Sift => Success(SIFTDetector)
    case Unlisted => Failure("Unknown detector type")
  }

  /** `createDetector(const std::string&)`: parse, then construct. */
  function CreateDetectorByName(name: string): (r: Result<Detector, string>)
    ensures r.Success? <==> Lower(name) in {"orb", "akaze", "sift"}
    ensures r.Failure? ==> r.error == "Unknown detector type: " + name
  {
    match StringToType(name)
    case Success(t) => CreateDetector(t)
    case Failure(e) => Failure(e)
  }
}
