/** The field-name suggestion form: the comma-separated list of existing
    names is split, trimmed and cleared of empty pieces, and an empty
    framework-requirements text is passed on as absent. */
module FieldNameSuggestion {
  import opened Wrappers
  import opened Sequences
  import opened Strings
  import opened Types

  /** The comma-separated segments of the text, each trimmed. */
  function TrimmedSegments(text: string): (segs: seq<string>)
    ensures |segs| == Occurrences(text, ',') + 1
    ensures forall j :: 0 <= j < |segs| ==> segs[j] == Trim(Split(text, ',')[j])
  {
    Map(Split(text, ','), Trim)
  }

  predicate IsNonEmpty(name: string) { name != [] }

  /** A name as the list should hold it: non-empty, no whitespace at either
      end, no comma. */
  predicate IsCleanName(name: string)
  {
    name != [] && !IsWhitespace(name[0]) && !IsWhitespace(name[|name| - 1]) && ',' !in name
  }

  /** Trimming a comma-free segment leaves it empty or a clean name. */
  lemma TrimSegmentClean(segment: string)
    requires ',' !in segment
    ensures Trim(segment) == [] || IsCleanName(Trim(segment))
  {
  }

  lemma TrimmedSegmentsClean(text: string)
    ensures forall j :: 0 <= j < |TrimmedSegments(text)| ==>
      TrimmedSegments(text)[j] == [] || IsCleanName(TrimmedSegments(text)[j])
  {
    var parts := Split(text, ',');
    var segs := TrimmedSegments(text);
    forall j | 0 <= j < |segs| ensures segs[j] == [] || IsCleanName(segs[j]) {
      TrimSegmentClean(parts[j]);
    }
  }

  /** `text.split(',').map(trim).filter(nonEmpty)`. */
  function ParseExistingNames(text: string): (names: seq<string>)
    ensures |names| <= Occurrences(text, ',') + 1
    ensures IsSubsequence(names, TrimmedSegments(text))
    ensures forall k :: 0 <= k < |names| ==> IsCleanName(names[k])
    ensures forall j :: 0 <= j < |TrimmedSegments(text)| && TrimmedSegments(text)[j] != [] ==>
      TrimmedSegments(text)[j] in names
  {
    TrimmedSegmentsClean(text);
    KeepNonEmpty(TrimmedSegments(text));
    Filter(TrimmedSegments(text), IsNonEmpty)
  }

  /** Dropping the empty pieces of a list of empty or clean pieces keeps
      every clean one and nothing else. */
  lemma KeepNonEmpty(segs: seq<string>)
    requires forall j :: 0 <= j < |segs| ==> segs[j] == [] || IsCleanName(segs[j])
    ensures var names := Filter(segs, IsNonEmpty);
      && (forall k :: 0 <= k < |names| ==> IsCleanName(names[k]))
      && (forall j :: 0 <= j < |segs| && segs[j] != [] ==> segs[j] in names)
  {
    var names := Filter(segs, IsNonEmpty);
    assert forall j :: 0 <= j < |segs| && segs[j] != [] ==> IsNonEmpty(segs[j]);
    assert forall k :: 0 <= k < |names| ==> names[k] in segs && IsNonEmpty(names[k]);
  }

  /** Parsing around one comma parses each side on its own; with
      ParseSingleSegment this fixes the list exactly, duplicates included. */
  lemma ParseExistingNamesConcat(a: string, b: string)
    ensures ParseExistingNames(a + [','] + b) == ParseExistingNames(a) + ParseExistingNames(b)
  {
    SplitConcat(a, b, ',');
    MapAppend(Split(a, ','), Split(b, ','), Trim);
    FilterAppend(TrimmedSegments(a), TrimmedSegments(b), IsNonEmpty);
  }

  /** Text without a comma gives its trimmed self, or nothing when it is all
      whitespace. */
  lemma ParseSingleSegment(text: string)
    requires ',' !in text
    ensures ParseExistingNames(text) == if Trim(text) == [] then [] else [Trim(text)]
  {
    SplitSeparatorFree(text, ',');
    var segs := TrimmedSegments(text);
    assert |segs| == 1 && segs[0] == Trim(text);
    assert segs == [Trim(text)];
    FilterSingleton(Trim(text), IsNonEmpty);
  }

  /** The list is empty exactly when the text holds nothing but commas and
      whitespace. */
  lemma ParseExistingNamesEmpty(text: string)
    ensures ParseExistingNames(text) == [] <==>
      forall i :: 0 <= i < |text| ==> text[i] == ',' || IsWhitespace(text[i])
  {
    if ParseExistingNames(text) == [] {
      EmptyParseMeansSeparators(text);
    } else {
      NameMeansNonSeparator(text, 0);
    }
  }

  lemma EmptyParseMeansSeparators(text: string)
    requires ParseExistingNames(text) == []
    ensures forall i :: 0 <= i < |text| ==> text[i] == ',' || IsWhitespace(text[i])
  {
    var parts := Split(text, ',');
    var segs := TrimmedSegments(text);
    assert ParseExistingNames(text) == Filter(segs, IsNonEmpty);
    assert forall k :: 0 <= k < |segs| ==> segs[k] == [];
    forall i | 0 <= i < |text| && text[i] != ',' ensures IsWhitespace(text[i]) {
      JoinCharInPart(parts, ',', text, i);
      var k :| 0 <= k < |parts| && text[i] in parts[k];
      assert Trim(parts[k]) == segs[k] == [];
    }
  }

  lemma NameMeansNonSeparator(text: string, k: nat)
    requires k < |ParseExistingNames(text)|
    ensures exists i :: 0 <= i < |text| && text[i] != ',' && !IsWhitespace(text[i])
  {
    var parts := Split(text, ',');
    var segs := TrimmedSegments(text);
    var name := ParseExistingNames(text)[k];
    assert name in segs;
    var j :| 0 <= j < |segs| && segs[j] == name;
    assert name == Trim(parts[j]) && IsCleanName(name);
    var c := name[0];
    assert c in parts[j] && c != ',' && !IsWhitespace(c);
    PartCharInJoin(parts, ',', j, c);
    assert c in text;
  }

  /** A character of the joined text that is not the separator lies in one
      of the parts. */
  lemma {:induction false} JoinCharInPart(parts: seq<string>, sep: char, text: string, i: int)
    requires parts != [] && text == Join(parts, sep)
    requires 0 <= i < |text| && text[i] != sep
    ensures exists k :: 0 <= k < |parts| && text[i] in parts[k]
  {
    if |parts| > 1 {
      var rest := Join(parts[1..], sep);
      assert text == parts[0] + [sep] + rest;
      if i < |parts[0]| {
        assert text[i] == parts[0][i];
      } else {
        assert i > |parts[0]|;
        assert text[i] == rest[i - |parts[0]| - 1];
        JoinCharInPart(parts[1..], sep, rest, i - |parts[0]| - 1);
        var k :| 0 <= k < |parts[1..]| && rest[i - |parts[0]| - 1] in parts[1..][k];
        assert parts[1..][k] == parts[k + 1];
      }
    }
  }

  /** Every character of a part occurs in the joined text. */
  lemma {:induction false} PartCharInJoin(parts: seq<string>, sep: char, j: int, c: char)
    requires parts != [] && 0 <= j < |parts| && c in parts[j]
    ensures c in Join(parts, sep)
  {
    if |parts| > 1 {
      var rest := Join(parts[1..], sep);
      assert Join(parts, sep) == parts[0] + [sep] + rest;
      if j > 0 {
        assert parts[1..][j - 1] == parts[j];
        PartCharInJoin(parts[1..], sep, j - 1, c);
      }
    }
  }

  /** `text || undefined`: the empty text becomes absent, any other text is
      passed on as it is. */
  function OptionalText(text: string): (r: Option<string>)
    ensures r.None? <==> text == ""
    ensures r.Some? ==> r.value == text
  {
    if text == "" then Option.None else Some(text)
  }

  /** The request the form sends: the description as typed, the parsed list
      of existing names (always present, possibly empty) and the optional
      framework requirements. */
  function SuggestionRequest(description: string, existingFieldNames: string, frameworkRequirements: string): (req: SuggestFieldNameInput)
    ensures req.description == description
    ensures req.existingFieldNames == Some(ParseExistingNames(existingFieldNames))
    ensures req.frameworkRequirements.None? <==> frameworkRequirements == ""
    ensures req.frameworkRequirements.Some? ==> req.frameworkRequirements.value == frameworkRequirements
  {
    SuggestFieldNameInput(description, Some(ParseExistingNames(existingFieldNames)), OptionalText(frameworkRequirements))
  }
}
