/**
 * The data model shared by the diff pipeline: edit types, the per-file patch
 * record, line ranges, model kinds and the fixed header strings.
 */
module PrTypes {
  import opened Wrappers

  /** How a file changed in the pull request. */
  datatype EditType = Added | Deleted | Modified | Renamed | Unknown
  {
    /** The enum's integer value. */
    function Value(): (v: int)
      ensures 1 <= v <= 5
    {
      match this
      case Added => 1
      case Deleted => 2
      case Modified => 3
      case Renamed => 4
      case Unknown => 5
    }
  }

  /** The five edit types are told apart by their values, and no other value is used. */
  lemma EditTypeValuesDistinct(a: EditType, b: EditType)
    ensures a.Value() == b.Value() <==> a == b
  {
  }

  /** The record describing one changed file; `tokens` is overwritten when the patch is counted. */
  class FilePatchInfo {
    var baseFile: string
    var headFile: string
    var patch: string
    var filename: string
    var tokens: int
    var editType: EditType
    var oldFilename: Option<string>
    var numPlusLines: int
    var numMinusLines: int
    var language: Option<string>
    /** The `long_summary` entry of the AI file summary, when there is one. */
    var aiFileSummary: Option<string>

    /** The dataclass constructor with its defaults. */
    constructor (baseFile: string, headFile: string, patch: string, filename: string)
      ensures this.baseFile == baseFile && this.headFile == headFile
      ensures this.patch == patch && this.filename == filename
      ensures tokens == -1 && editType == Unknown && oldFilename == None
      ensures numPlusLines == -1 && numMinusLines == -1
      ensures language == None && aiFileSummary == None
    {
      this.baseFile := baseFile;
      this.headFile := headFile;
      this.patch := patch;
      this.filename := filename;
      tokens := -1;
      editType := Unknown;
      oldFilename := None;
      numPlusLines := -1;
      numMinusLines := -1;
      language := None;
      aiFileSummary := None;
    }
  }

  /** A line range; `lineStart` is 0-indexed. */
  datatype Range = Range(lineStart: int, lineEnd: int, columnStart: int, columnEnd: int)

  /** A range built with the default (absent) columns. */
  function LineRange(lineStart: int, lineEnd: int): (r: Range)
    ensures r.lineStart == lineStart && r.lineEnd == lineEnd
    ensures r.columnStart == -1 && r.columnEnd == -1
  {
    Range(lineStart, lineEnd, -1, -1)
  }

  datatype ModelType = RegularModel | WeakModel | ReasoningModel
  {
    function Value(): string
    {
      match this
      case RegularModel => "regular"
      case WeakModel => "weak"
      case ReasoningModel => "reasoning"
    }
  }

  lemma ModelTypeValuesDistinct(a: ModelType, b: ModelType)
    ensures a.Value() == b.Value() <==> a == b
  {
  }

  datatype ReasoningEffort = High | Medium | Low
  {
    function Value(): string
    {
      match this
      case High => "high"
      case Medium => "medium"
      case Low => "low"
    }
  }

  /** The two review headers. */
  const ReviewHeaderRegular: string := "## PR Reviewer Guide"
  const ReviewHeaderIncremental: string := "## Incremental PR Reviewer Guide"

  const DiagramWalkthrough: string := "Diagram Walkthrough"
  const FileWalkthrough: string := "File Walkthrough"

  /** A to-do item: a file, a pair of line numbers and the text. */
  datatype TodoItem = TodoItem(relevantFile: string, lineRange: (int, int), content: string)
}
