/** The shared record and enumeration types: a data-dictionary entry with its
    data type and sensitivity, the masking techniques, and the request and
    reply records of the field-name suggestion service. */
module Types {
  import opened Wrappers

  datatype DataType = String | Number | Boolean | Object | Array | Date | Timestamp | Mixed

  /** Sensitivity levels, from least to most confidential. */
  datatype Sensitivity = None | Low | Medium | High | Critical

  datatype MaskingTechnique =
    | EncryptionAes256
    | Tokenization
    | Redaction
    | HashingSha256
    | DateTruncation
    | Generalization
    | NoMasking

  /** The display text of each technique. */
  function TechniqueLabel(t: MaskingTechnique): (shown: string)
    ensures shown != []
    ensures shown == "None" <==> t == NoMasking
  {
    match t
    case EncryptionAes256 => "Encryption (AES-256)"
    case Tokenization => "Tokenization"
    case Redaction => "Redaction"
    case HashingSha256 => "Hashing (SHA-256)"
    case DateTruncation => "Date Truncation"
    case Generalization => "Generalization"
    case NoMasking => "None"
  }

  /** Distinct techniques are shown with distinct texts. */
  lemma TechniqueLabelInjective(t1: MaskingTechnique, t2: MaskingTechnique)
    requires TechniqueLabel(t1) == TechniqueLabel(t2)
    ensures t1 == t2
  {
  }

  datatype DataDictionaryEntry = DataDictionaryEntry(
    id: string,
    fieldName: string,
    description: string,
    dataType: DataType,
    sensitivity: Sensitivity,
    maskingRecommendation: string,
    apiGroup: string,
    tags: Option<seq<string>>,
    example: Option<string>,
    alternativeNames: Option<seq<string>>,
    validationRules: Option<seq<string>>,
    complianceNotes: Option<string>,
    lastUpdated: Option<string>)

  /** What is sent to the external name-suggestion service. */
  datatype SuggestFieldNameInput = SuggestFieldNameInput(
    description: string,
    existingFieldNames: Option<seq<string>>,
    frameworkRequirements: Option<string>)

  /** What the service answers; its content is not constrained. */
  datatype SuggestFieldNameOutput = SuggestFieldNameOutput(
    suggestedFieldName: string,
    reasoning: string)

  /** The outcome of one call to the service: an answer, or a thrown value,
      which carries a message when it is an `Error` object. */
  datatype SuggestionReply =
    | Replied(output: SuggestFieldNameOutput)
    | Threw(errorMessage: Option<string>)
}
