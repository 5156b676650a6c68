/** The masking-recommendation page: a decision table from data type,
    sensitivity and field name to a masking technique, and the page state
    the form updates when both selections are present. */
module MaskingRecommendations {
  import opened Wrappers
  import opened Strings
  import opened Types

  /** The recommendation for the current selections; an unselected data type
      or sensitivity gives "None". */
  function GetRecommendation(fieldName: string, dataType: Option<DataType>, sensitivity: Option<Sensitivity>): (t: MaskingTechnique)
    ensures dataType.None? || sensitivity.None? ==> t == NoMasking
    ensures t == NoMasking <==>
      dataType.None? || sensitivity.None? || sensitivity.value.Low? || sensitivity.value.None?
    ensures t == Tokenization ==> sensitivity == Some(Critical)
    ensures t == Redaction ==> sensitivity == Some(High) && dataType == Some(String)
    ensures t == Generalization ==> sensitivity == Some(Medium) && dataType == Some(String)
    ensures t == DateTruncation ==>
      (sensitivity == Some(High) && (dataType == Some(Date) || dataType == Some(Timestamp)))
      || (sensitivity == Some(Medium) && dataType == Some(Date))
    ensures t == EncryptionAes256 ==> sensitivity == Some(Critical) || sensitivity == Some(High)
    ensures t == HashingSha256 ==> sensitivity == Some(Medium)
  {
    if dataType.None? || sensitivity.None? then NoMasking
    else
      var dt, s := dataType.value, sensitivity.value;
      var lower := ToLowerCase(fieldName);
      if s == Critical then
        if dt == String || dt == Object then Tokenization else EncryptionAes256
      else if s == High then
        if dt == String && (Includes(lower, "email") || Includes(lower, "phone")) then Redaction
        else if dt == Date || dt == Timestamp then DateTruncation
        else EncryptionAes256
      else if s == Medium then
        if dt == String && Includes(lower, "address") then Generalization
        else if dt == Number && (Includes(lower, "salary") || Includes(lower, "income")) then HashingSha256
        else if dt == Date then DateTruncation
        else HashingSha256
      else NoMasking
  }

  /** Critical: Tokenization for strings and objects, Encryption otherwise. */
  lemma CriticalRecommendation(fieldName: string, dt: DataType)
    ensures GetRecommendation(fieldName, Some(dt), Some(Critical)) ==
      if dt == String || dt == Object then Tokenization else EncryptionAes256
  {
  }

  /** High: Redaction for an e-mail or phone string, Date Truncation for dates
      and timestamps, Encryption otherwise. */
  lemma HighRecommendation(fieldName: string, dt: DataType)
    ensures var lower := ToLowerCase(fieldName);
      GetRecommendation(fieldName, Some(dt), Some(High)) ==
        if dt == String && (Includes(lower, "email") || Includes(lower, "phone")) then Redaction
        else if dt == Date || dt == Timestamp then DateTruncation
        else EncryptionAes256
  {
  }

  /** Medium: Generalization for an address string, Date Truncation for dates
      (not timestamps), Hashing otherwise. */
  lemma MediumRecommendation(fieldName: string, dt: DataType)
    ensures GetRecommendation(fieldName, Some(dt), Some(Medium)) ==
      if dt == String && Includes(ToLowerCase(fieldName), "address") then Generalization
      else if dt == Date then DateTruncation
      else HashingSha256
  {
  }

  /** Apart from strings, the field name plays no part. */
  lemma NameMattersOnlyForStrings(name1: string, name2: string, dt: DataType, s: Option<Sensitivity>)
    requires dt != String
    ensures GetRecommendation(name1, Some(dt), s) == GetRecommendation(name2, Some(dt), s)
  {
  }

  /** A notification shown by the page. */
  datatype Toast = Toast(title: string, description: string, destructive: bool)

  class MaskingRecommendationsPage {
    var fieldName: string
    var dataType: Option<DataType>
    var sensitivity: Option<Sensitivity>
    var regulatoryContext: string
    var recommendation: Option<MaskingTechnique>

    constructor ()
      ensures fieldName == "" && dataType.None? && sensitivity.None?
      ensures regulatoryContext == "" && recommendation.None?
    {
      fieldName := "";
      dataType := Option.None;
      sensitivity := Option.None;
      regulatoryContext := "";
      recommendation := Option.None;
    }

    /** Submitting the form: with a selection missing, only a warning toast
        is shown and the stored recommendation is kept; otherwise the
        recommendation for the selections is stored and announced. */
    method HandleSubmit() returns (toast: Toast)
      modifies this`recommendation
      ensures dataType.None? || sensitivity.None? ==>
        recommendation == old(recommendation)
        && toast == Toast("Missing Information", "Please select data type and sensitivity level.", true)
      ensures dataType.Some? && sensitivity.Some? ==>
        var t := GetRecommendation(fieldName, dataType, sensitivity);
        recommendation == Some(t)
        && toast == Toast("Recommendation Generated", "Suggested masking: " + TechniqueLabel(t), false)
    {
      if dataType.None? || sensitivity.None? {
        toast := Toast("Missing Information", "Please select data type and sensitivity level.", true);
        return;
      }
      var rec := GetRecommendation(fieldName, dataType, sensitivity);
      recommendation := Some(rec);
      toast := Toast("Recommendation Generated", "Suggested masking: " + TechniqueLabel(rec), false);
    }
  }
}
