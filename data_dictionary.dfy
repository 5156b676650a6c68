/** The data-dictionary page: a case-insensitive search over four fields of
    each entry, the badge shown for a sensitivity, and the shortened display
    of an entry's example. */
module DataDictionary {
  import opened Wrappers
  import opened Sequences
  import opened Strings
  import opened Types

  /** The term, lower-cased, occurs in the lower-cased text. */
  predicate ContainsTerm(text: string, term: string)
  {
    Includes(ToLowerCase(text), ToLowerCase(term))
  }

  /** Some tag of the entry contains the term; an entry without tags has none. */
  predicate SomeTagContains(tags: Option<seq<string>>, term: string)
  {
    tags.Some? && exists i :: 0 <= i < |tags.value| && ContainsTerm(tags.value[i], term)
  }

  /** The search predicate: the term occurs, ignoring case, in the field name,
      the description, the API group or one of the tags. */
  predicate MatchesSearch(entry: DataDictionaryEntry, term: string): (matched: bool)
    ensures term == "" ==> matched
  {
    IncludesEmptyAndSelf(ToLowerCase(entry.fieldName));
    ContainsTerm(entry.fieldName, term)
    || ContainsTerm(entry.description, term)
    || ContainsTerm(entry.apiGroup, term)
    || SomeTagContains(entry.tags, term)
  }

  /** The entries shown for a search term: all of them for an empty term,
      otherwise those that match, in their original order. */
  function FilteredData(data: seq<DataDictionaryEntry>, term: string): (shown: seq<DataDictionaryEntry>)
    ensures term == "" ==> shown == data
    ensures IsSubsequence(shown, data)
    ensures forall i :: 0 <= i < |shown| ==> shown[i] in data && MatchesSearch(shown[i], term)
    ensures forall i :: 0 <= i < |data| && MatchesSearch(data[i], term) ==> data[i] in shown
  {
    if term == "" then
      assert forall i :: 0 <= i < |data| ==> MatchesSearch(data[i], term) by {
        forall i | 0 <= i < |data| ensures MatchesSearch(data[i], term) {
          IncludesEmptyAndSelf(ToLowerCase(data[i].fieldName));
        }
      }
      IsSubsequenceReflexive(data);
      data
    else Filter(data, entry => MatchesSearch(entry, term))
  }

  /** The early return for an empty term is only a shortcut: every entry
      matches the empty term, so filtering would show the same list. */
  lemma EmptyTermShortcut(data: seq<DataDictionaryEntry>)
    ensures FilteredData(data, "") == Filter(data, entry => MatchesSearch(entry, ""))
  {
    forall i | 0 <= i < |data| ensures MatchesSearch(data[i], "") {
      IncludesEmptyAndSelf(ToLowerCase(data[i].fieldName));
    }
    FilterKeepsAll(data, entry => MatchesSearch(entry, ""));
  }

  /** The search ignores the case of the term: two terms that agree after
      lower-casing show the same entries. */
  lemma SearchIgnoresTermCase(data: seq<DataDictionaryEntry>, term1: string, term2: string)
    requires ToLowerCase(term1) == ToLowerCase(term2)
    ensures FilteredData(data, term1) == FilteredData(data, term2)
  {
    assert |term1| == |term2|;
    assert (term1 == "") == (term2 == "");
    FilterCongruent(data, entry => MatchesSearch(entry, term1), entry => MatchesSearch(entry, term2));
  }

  /** An entry without tags can only match through its field name,
      description or API group. */
  lemma UntaggedEntryMatch(entry: DataDictionaryEntry, term: string)
    requires entry.tags.None?
    ensures MatchesSearch(entry, term) <==>
      ContainsTerm(entry.fieldName, term) || ContainsTerm(entry.description, term) || ContainsTerm(entry.apiGroup, term)
  {
  }

  /** Searching a concatenation of lists searches each list in turn. */
  lemma FilteredDataAppend(a: seq<DataDictionaryEntry>, b: seq<DataDictionaryEntry>, term: string)
    ensures FilteredData(a + b, term) == FilteredData(a, term) + FilteredData(b, term)
  {
    if term != "" {
      FilterAppend(a, b, entry => MatchesSearch(entry, term));
    }
  }

  datatype BadgeVariant = Default | Secondary | Destructive | Outline

  /** The badge of a sensitivity level. */
  function GetBadgeVariant(s: Sensitivity): (b: BadgeVariant)
    ensures b == Destructive <==> s == Critical || s == High
    ensures b == Default <==> s == Medium
    ensures b == Secondary <==> s == Low
    ensures b == Outline <==> s.None?
  {
    match s
    case Critical => Destructive
    case High => Destructive
    case Medium => Default
    case Low => Secondary
    case _ => Outline
  }

  const ExampleDisplayLimit: nat := 20

  /** The example cell: an example longer than 20 characters is cut to its
      first 20 characters followed by "..."; any other example, and a
      missing one, is shown as it is. */
  function DisplayExample(example: Option<string>): (shown: Option<string>)
    ensures shown.Some? <==> example.Some?
    ensures example.Some? && |example.value| > ExampleDisplayLimit ==>
      |shown.value| == ExampleDisplayLimit + 3
      && shown.value[..ExampleDisplayLimit] == example.value[..ExampleDisplayLimit]
      && shown.value[ExampleDisplayLimit..] == "..."
    ensures example.Some? && |example.value| <= ExampleDisplayLimit ==> shown == example
  {
    if example.Some? && example.value != "" && |example.value| > ExampleDisplayLimit then
      Some(example.value[..ExampleDisplayLimit] + "...")
    else example
  }
}
