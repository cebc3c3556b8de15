/**
 * The execution-provider (EP) tables: the canonical name of each EP, the
 * names accepted for it on input, the long and display names shown to the
 * user, the GGML family and the sub-directory holding each EP's
 * dependencies.
 */
module ExecutionProvider {

  datatype EP =
    | NativeOpenVINO | OrtGenAI | WindowsML | Metal | Vulkan | CUDA
    | NativeQNN | MLX | OrtGenAIRyzenAI | Unknown

  /** `EPToString`: the canonical name of an EP. */
  function EPToString(ep: EP): string
  {
    match ep
    case NativeOpenVINO => "IHV NativeOpenVINO"
    case OrtGenAI => "IHV OrtGenAI"
    case WindowsML => "IHV WindowsML"
    case Metal => "IHV Metal"
    case Vulkan => "IHV Vulkan"
    case CUDA => "IHV CUDA"
    case NativeQNN => "NativeQNN"
    case MLX => "IHV MLX"
    case OrtGenAIRyzenAI => "IHV OrtGenAI RyzenAI"
    case Unknown => "Unknown"
  }

  /** `NameToEP`: the first matching test of the if-chain decides; no match is `Unknown`. */
  function NameToEP(name: string): EP
  {
    if name == "IHV NativeOpenVINO" || name == "NativeOpenVINO" then NativeOpenVINO
    else if name == "IHV OrtGenAI" || name == "OrtGenAI" then OrtGenAI
    else if name == "IHV OrtGenAI RyzenAI" || name == "OrtGenAI-RyzenAI" then OrtGenAIRyzenAI
    else if name == "IHV WindowsML" || name == "WindowsML" || name == "WinML" then WindowsML
    else if name == "IHV Metal" || name == "Metal" then Metal
    else if name == "IHV Vulkan" || name == "Vulkan" then Vulkan
    else if name == "IHV CUDA" || name == "CUDA" then CUDA
    else if name == "NativeQNN" then NativeQNN
    else if name == "MLX" || name == "IHV MLX" then MLX
    else Unknown
  }

  /** Every name the input side accepts, with the EP it stands for. */
  const AcceptedNames: map<string, EP> := map[
    "IHV NativeOpenVINO" := NativeOpenVINO, "NativeOpenVINO" := NativeOpenVINO,
    "IHV OrtGenAI" := OrtGenAI, "OrtGenAI" := OrtGenAI,
    "IHV OrtGenAI RyzenAI" := OrtGenAIRyzenAI, "OrtGenAI-RyzenAI" := OrtGenAIRyzenAI,
    "IHV WindowsML" := WindowsML, "WindowsML" := WindowsML, "WinML" := WindowsML,
    "IHV Metal" := Metal, "Metal" := Metal,
    "IHV Vulkan" := Vulkan, "Vulkan" := Vulkan,
    "IHV CUDA" := CUDA, "CUDA" := CUDA,
    "NativeQNN" := NativeQNN,
    "MLX" := MLX, "IHV MLX" := MLX]

  /** The if-chain agrees with the table of accepted names: a listed name gives its EP, any other `Unknown`. */
  lemma NameToEPMatchesTable(name: string)
    ensures name in AcceptedNames ==> NameToEP(name) == AcceptedNames[name]
    ensures name !in AcceptedNames ==> NameToEP(name) == Unknown
  {
  }

  /** Reading back a canonical name gives the EP it was written for, `Unknown` included. */
  lemma NameToEPInvertsEPToString(ep: EP)
    ensures NameToEP(EPToString(ep)) == ep
  {
    match ep
    case NativeOpenVINO =>
    case OrtGenAI =>
    case WindowsML =>
    case Metal =>
    case Vulkan =>
    case CUDA =>
    case NativeQNN =>
    case MLX =>
    case OrtGenAIRyzenAI =>
    case Unknown =>
  }

  /** Distinct EPs have distinct canonical names. */
  lemma EPToStringInjective(a: EP, b: EP)
    requires EPToString(a) == EPToString(b)
    ensures a == b
  {
    NameToEPInvertsEPToString(a);
    NameToEPInvertsEPToString(b);
  }

  /** The canonical name without its "IHV " prefix, for the EPs that have one. */
  function BareName(ep: EP): string
  {
    match ep
    case NativeOpenVINO => "NativeOpenVINO"
    case OrtGenAI => "OrtGenAI"
    case WindowsML => "WindowsML"
    case Metal => "Metal"
    case Vulkan => "Vulkan"
    case CUDA => "CUDA"
    case NativeQNN => "NativeQNN"
    case MLX => "MLX"
    case OrtGenAIRyzenAI => "OrtGenAI-RyzenAI"
    case Unknown => "Unknown"
  }

  /**
   * Every known EP is accepted under its bare name as well; the canonical
   * name is the bare name behind "IHV " for all of them but NativeQNN (which
   * has no prefix) and the Ryzen AI EP (which is spelt with a space there).
   */
  lemma BareNamesAccepted(ep: EP)
    ensures NameToEP(BareName(ep)) == ep
  {
    match ep
    case NativeOpenVINO =>
    case OrtGenAI =>
    case WindowsML =>
    case Metal =>
    case Vulkan =>
    case CUDA =>
    case NativeQNN =>
    case MLX =>
    case OrtGenAIRyzenAI =>
    case Unknown =>
  }

  lemma CanonicalNameIsPrefixedBareName(ep: EP)
    ensures ep !in {NativeQNN, OrtGenAIRyzenAI, Unknown} ==> EPToString(ep) == "IHV " + BareName(ep)
  {
    match ep
    case NativeOpenVINO =>
    case OrtGenAI =>
    case WindowsML =>
    case Metal =>
    case Vulkan =>
    case CUDA =>
    case NativeQNN =>
    case MLX =>
    case OrtGenAIRyzenAI =>
    case Unknown =>
  }

  function IsValidEP(ep: EP): bool
  {
    ep != Unknown
  }

  /** `IsValidEP` on a name: exactly the names the input side accepts. */
  function IsValidEPName(name: string): (r: bool)
    ensures r <==> name in AcceptedNames
  {
    NameToEPMatchesTable(name);
    IsValidEP(NameToEP(name))
  }

  /** `IsEPFromGGML`: the EPs served by the llama.cpp backend. */
  function IsEPFromGGML(ep: EP): (r: bool)
    ensures r <==> ep in {Metal, Vulkan, CUDA}
  {
    match ep
    case Metal | Vulkan | CUDA => true
    case _ => false
  }

  /** `GetEPDependencySubdirPath`: where an EP's dependencies are kept; empty for `Unknown`. */
  function GetEPDependencySubdirPath(ep: EP): (r: string)
    ensures r == "" <==> ep == Unknown
  {
    match ep
    case NativeOpenVINO => "IHV/NativeOpenVINO"
    case OrtGenAI => "IHV/OrtGenAI"
    case WindowsML => "IHV/WindowsML"
    case Metal => "IHV/GGML"
    case Vulkan => "IHV/GGML"
    case CUDA => "IHV/GGML"
    case NativeQNN => "IHV/NativeQNN"
    case MLX => "IHV/MLX"
    case OrtGenAIRyzenAI => "IHV/OrtGenAI-RyzenAI"
    case Unknown => ""
  }

  /** The GGML family is exactly the EPs sharing the "IHV/GGML" directory; every other EP has its own. */
  lemma GgmlSharesOneDirectory(a: EP, b: EP)
    ensures IsEPFromGGML(a) <==> GetEPDependencySubdirPath(a) == "IHV/GGML"
    ensures a != b && GetEPDependencySubdirPath(a) == GetEPDependencySubdirPath(b) ==>
      IsEPFromGGML(a) && IsEPFromGGML(b)
  {
  }

  /** `EPNameToLongName`: the long name of a known EP name, any other name unchanged. */
  function EPNameToLongName(name: string): string
  {
    if name == "IHV NativeOpenVINO" || name == "NativeOpenVINO" then "Native OpenVINO"
    else if name == "IHV NativeQNN" || name == "NativeQNN" then "Native QNN"
    else if name == "IHV OrtGenAI" || name == "OrtGenAI" then "ORT GenAI"
    else if name == "IHV OrtGenAI-RyzenAI" || name == "OrtGenAI-RyzenAI" then "ORT GenAI Ryzen AI"
    else if name == "IHV WindowsML" || name == "WindowsML" || name == "Windows ML" then "Windows ML"
    else if name == "IHV Metal" || name == "Metal" then "llamacpp Metal"
    else if name == "IHV CUDA" || name == "CUDA" then "llamacpp CUDA"
    else if name == "IHV Vulkan" || name == "Vulkan" then "llamacpp Vulkan"
    else name
  }

  /** `EPNameToDisplayName`: only the two names with a compact spelling change. */
  function EPNameToDisplayName(name: string): string
  {
    if name == "WindowsML" then "Windows ML"
    else if name == "OrtGenAI-RyzenAI" then "ORT GenAI Ryzen AI"
    else name
  }

  /** The names `EPNameToLongName` produces for the EP names it knows. */
  const LongNames: set<string> := {"Native OpenVINO", "Native QNN", "ORT GenAI", "ORT GenAI Ryzen AI",
    "Windows ML", "llamacpp Metal", "llamacpp CUDA", "llamacpp Vulkan"}

  /** A name is either left alone or turned into one of the long names. */
  lemma LongNameRange(name: string)
    ensures EPNameToLongName(name) == name || EPNameToLongName(name) in LongNames
  {
  }

  /** A display name is its own display name. */
  lemma DisplayNameIsFixedPoint(name: string)
    ensures EPNameToDisplayName(EPNameToDisplayName(name)) == EPNameToDisplayName(name)
  {
  }

  /** Where the display name changes a name, the long name changes it the same way. */
  lemma DisplayNameAgreesWithLongName(name: string)
    ensures EPNameToDisplayName(name) != name ==> EPNameToDisplayName(name) == EPNameToLongName(name)
  {
  }
}
