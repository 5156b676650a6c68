# LexiField decision logic in Dafny

LexiField is a browser console for an API data dictionary. Most of it is
React markup and two calls to a hosted language model. This project models
the parts that decide something:

- **Field-name validation** (`FieldValidation`). Three local checks run on a
  proposed name: the camelCase pattern `^[a-z]+(?:[A-Z][a-z]*)*$`, at most
  30 characters, and not one of `id`, `type`, `object` ignoring case.
  Each failed check adds one message and escalates the status from
  success to warning to error. The merge then folds in the answer of the
  name-suggestion service. It may record an alternative name or a concern,
  it raises success to warning when it adds a detail, it never lowers an
  error, and it picks the message from the final status. The service is
  not modelled. It is a parameter of `ValidateFieldName`: a function from
  the request the page builds to an answer `(suggestedFieldName,
  reasoning)` or a thrown error, which gives an error message and no
  verdict.
- **Masking recommendations** (`MaskingRecommendations`). A decision table
  from data type, sensitivity and field name to one of seven techniques.
  The page class stores a new recommendation only when both selections
  are present.
- **Data-dictionary display** (`DataDictionary`). A case-insensitive
  substring search over field name, description, API group and tags. Also
  the badge for each sensitivity level and the 20-character cut of an
  example.
- **Field-name suggestion form** (`FieldNameSuggestion`). The
  comma-separated list of existing names is split, trimmed and cleared of
  empty pieces. An empty framework-requirements text is sent as absent.
- **Application shell** (`AppShell`). The sidebar table, the test for the
  active item (exact or prefix match) and the page-title lookup with its
  "LexiField" fallback.

The helper modules model the JavaScript built-ins these pages call:
`Strings` (`toLowerCase`, `includes`, `startsWith`, `trim`, `split`) and
`Sequences` (`map`, `filter`). `Types` holds the enumerations and records
of `src/types/index.ts` and the request and reply records of the
suggestion service. `Wrappers` holds `Option` and `Result`.

Points where the code behaves in a way that is easy to misread:

- The pattern at `src/app/field-validation/page.tsx:25` allows only
  lower-case letters after an upper-case one (`[a-z]*`), so a name with a
  digit anywhere fails the camelCase check.
- Of the three tests at `src/app/field-validation/page.tsx:80`, only the
  equality test ignores case. The two containment tests are
  case-sensitive.
- The concern check at `src/app/field-validation/page.tsx:84` is the
  `else if` branch of the alternative check, so at most one detail is
  added.
- The output schema at `src/ai/flows/suggest-field-name.ts:29-36` asks only
  for strings, so the model accepts any strings, the empty one included.
  An empty suggestion is contained in every name, so it never counts as an
  alternative.

## Model

| member | source | states |
|---|---|---|
| `FieldValidation.CamelCasePatternExact` | src/app/field-validation/page.tsx:25 | The pattern `^[a-z]+(?:[A-Z][a-z]*)*$`, stated as a language, accepts exactly the names that are non-empty, start with `a`-`z` and contain only ASCII letters. |
| `FieldValidation.MatchesGroupsExact` | src/app/field-validation/page.tsx:25 | The repeated group `(?:[A-Z][a-z]*)*` matches exactly the letter-only strings that are empty or start with an upper-case letter. |
| `FieldValidation.Violations` | src/app/field-validation/page.tsx:41-52 | A check appears in the list exactly when it fails: camelCase iff the pattern fails, length iff over 30 characters, reserved iff the lower-cased name is `id`, `type` or `object`. Each appears at most once, in the order camelCase, length, reserved. |
| `FieldValidation.LocalStatus` | src/app/field-validation/page.tsx:39-53 | The local status is never info. It is error exactly for a reserved name, whatever else fails. It is warning exactly when some other check fails and the name is not reserved. It is success exactly when no check fails. |
| `FieldValidation.PerformLocalValidation` | src/app/field-validation/page.tsx:37-56 | The step-by-step escalation ends in the local status. The details are absent exactly when the status is success; otherwise they are one message per failed check, in order. |
| `FieldValidation.ReservedIgnoresCase` | src/app/field-validation/page.tsx:49 | A name is reserved exactly when its lower-cased form is. |
| `FieldValidation.UserIdPasses` | src/app/field-validation/page.tsx:24-28 | "userId", the field name of the first sample entry of the data dictionary (`src/app/data-dictionary-content.tsx:25`), meets all three conventions, so its local status is success. |
| `FieldValidation.PlaceholderFailsCamelCase` | src/app/field-validation/page.tsx:144 | The placeholder "newCustomer_email" fails only the camelCase check, so its local status is warning. |
| `FieldValidation.ReservedAndDigitExamples` | src/app/field-validation/page.tsx:25-27 | "id" and "ID" are errors; "user1" fails camelCase because of the digit. |
| `FieldValidation.CrossCheckRequest` | src/app/field-validation/page.tsx:74-77 | The request sent to the suggestion service mentions the name in its description, lists exactly the existing names `orderId`, `customerName`, `productSku` in that order, and has no framework requirements. `ValidateFieldName` calls the service on this request. |
| `FieldValidation.IsAlternative` | src/app/field-validation/page.tsx:80 | The suggestion counts as an alternative when it differs from the name ignoring case and neither string contains the other (case-sensitive). So an alternative is never empty, never the name itself, and the name is not empty either. |
| `FieldValidation.RaisesConcern` | src/app/field-validation/page.tsx:84 | The reasoning raises a concern exactly when its lower-cased text has "conflict" or "ambiguous" at some offset. Such a reasoning has at least 8 characters. |
| `FieldValidation.ValidateFieldName` | src/app/field-validation/page.tsx:63-114 | The service is called on `CrossCheckRequest(name)`. A thrown call gives an error message and no verdict. The message is the error's own, or "An unexpected error occurred.". An answer gives a verdict whose status is never info and never below the local status. The status is error exactly when the local status is error: the answer can raise success to warning but never cause an error. Success holds exactly when the name passes locally and the answer adds no detail, and exactly when the details are empty. The local messages come first, followed by at most one detail from the service. An alternative is recorded, unchanged, exactly when the suggestion differs ignoring case and neither string contains the other (case-sensitive). A concern detail is added only when no alternative was. The message is fixed by the status. |
| `FieldValidation.StatusMessage` | src/app/field-validation/page.tsx:90-96 | The message for success, error or warning starts with "Field name '<name>' ". The message for info is the fallback "Validation checks performed.". |
| `FieldValidation.StatusMessageDistinct` | src/app/field-validation/page.tsx:90-96 | No two statuses share a message, so the message tells which status the verdict has. |
| `FieldValidation.ThrownMessage` | src/app/field-validation/page.tsx:107 | A thrown error's own message is shown unchanged. The text shown is empty only when that message is itself empty; without a message the fallback is shown. |
| `MaskingRecommendations.GetRecommendation` | src/app/masking-recommendations/page.tsx:26-46 | A missing selection gives "None". "None" is given exactly when a selection is missing or the sensitivity is Low or None. Tokenization comes only from Critical. Redaction comes only from High strings, Generalization only from Medium strings. Date Truncation comes only from High date/timestamp or Medium date. Encryption comes only from Critical or High, Hashing only from Medium. |
| `Types.TechniqueLabel` | src/types/index.ts:17 | Every technique has a non-empty display text, and "None" is the text of no-masking alone. |
| `Types.TechniqueLabelInjective` | src/types/index.ts:17 | Distinct techniques have distinct texts, so the toast at `src/app/masking-recommendations/page.tsx:62` names the technique unambiguously. |
| `MaskingRecommendations.CriticalRecommendation` | src/app/masking-recommendations/page.tsx:29-32 | Critical gives Tokenization for string and object and Encryption (AES-256) for every other type. |
| `MaskingRecommendations.HighRecommendation` | src/app/masking-recommendations/page.tsx:33-37 | High gives Redaction for a string whose lower-cased name contains "email" or "phone". It gives Date Truncation for date and timestamp, and Encryption otherwise. |
| `MaskingRecommendations.MediumRecommendation` | src/app/masking-recommendations/page.tsx:38-43 | Medium gives Generalization for a string whose lower-cased name contains "address". It gives Date Truncation for date only (not timestamp), and Hashing (SHA-256) otherwise. The salary/income branch for numbers also gives Hashing. |
| `MaskingRecommendations.NameMattersOnlyForStrings` | src/app/masking-recommendations/page.tsx:26-46 | For any data type other than string, the recommendation does not depend on the field name. |
| `MaskingRecommendations.MaskingRecommendationsPage.constructor` | src/app/masking-recommendations/page.tsx:19-23 | The page starts with an empty name, no selections, empty regulatory context and no recommendation. |
| `MaskingRecommendations.MaskingRecommendationsPage.HandleSubmit` | src/app/masking-recommendations/page.tsx:48-64 | With a selection missing, the stored recommendation is unchanged and a destructive "Missing Information" toast is returned. Otherwise the recommendation for the current selections is stored and announced. |
| `DataDictionary.FilteredData` | src/app/data-dictionary-content.tsx:105-114 | An empty term shows the data unchanged. The result is a subsequence of the data in the original order. Every shown entry matches the term. Every matching entry is shown. |
| `DataDictionary.MatchesSearch` | src/app/data-dictionary-content.tsx:108-112 | The search test on one entry. Every entry matches the empty term. |
| `DataDictionary.EmptyTermShortcut` | src/app/data-dictionary-content.tsx:106-113 | The early return for an empty term shows what filtering with it would show: every entry matches the empty term. |
| `DataDictionary.SearchIgnoresTermCase` | src/app/data-dictionary-content.tsx:105-114 | Two terms that are equal after lower-casing show the same entries. |
| `DataDictionary.UntaggedEntryMatch` | src/app/data-dictionary-content.tsx:112 | An entry without tags matches only through its field name, description or API group. |
| `DataDictionary.FilteredDataAppend` | src/app/data-dictionary-content.tsx:107-113 | Searching a concatenation gives the concatenation of the two searches, so entries are judged one by one and kept in order. |
| `DataDictionary.GetBadgeVariant` | src/app/data-dictionary-content.tsx:90-98 | Destructive exactly for Critical and High, default exactly for Medium, secondary exactly for Low, outline exactly for None. |
| `DataDictionary.DisplayExample` | src/app/data-dictionary-content.tsx:212 | An example over 20 characters is shown as its first 20 characters and "..." (23 in all). A shorter example, or a missing one, is shown unchanged. |
| `FieldNameSuggestion.TrimmedSegments` | src/app/field-name-suggestion/page.tsx:33 | There is one segment per comma-separated part, the number of commas plus one, and segment `j` is part `j` of the split, trimmed. |
| `FieldNameSuggestion.ParseExistingNames` | src/app/field-name-suggestion/page.tsx:33 | No element is empty, has whitespace at either end, or contains a comma. The elements are a subsequence of the trimmed segments, so they keep their left-to-right order. Every non-empty trimmed segment is in the list. There are at most commas-plus-one of them. |
| `FieldNameSuggestion.KeepNonEmpty` | src/app/field-name-suggestion/page.tsx:33 | Dropping the empty pieces of a list of empty or clean pieces keeps exactly the clean ones. |
| `FieldNameSuggestion.ParseExistingNamesConcat` | src/app/field-name-suggestion/page.tsx:33 | Parsing text joined at a comma gives the two parses one after the other, duplicates and order included. |
| `FieldNameSuggestion.ParseSingleSegment` | src/app/field-name-suggestion/page.tsx:33 | Text without a comma parses to its trimmed self, or to nothing when it is all whitespace. With the previous row this fixes the list for every text. |
| `FieldNameSuggestion.TrimSegmentClean` | src/app/field-name-suggestion/page.tsx:33 | Trimming a comma-free segment gives either nothing or a clean name. |
| `FieldNameSuggestion.TrimmedSegmentsClean` | src/app/field-name-suggestion/page.tsx:33 | Every trimmed segment is empty or a clean name. |
| `FieldNameSuggestion.ParseExistingNamesEmpty` | src/app/field-name-suggestion/page.tsx:33 | The list is empty exactly when the text contains only commas and whitespace (the empty text included). |
| `FieldNameSuggestion.EmptyParseMeansSeparators` | src/app/field-name-suggestion/page.tsx:33 | An empty list means every character of the text is a comma or whitespace. |
| `FieldNameSuggestion.NameMeansNonSeparator` | src/app/field-name-suggestion/page.tsx:33 | A non-empty list means the text contains a character that is neither a comma nor whitespace. |
| `FieldNameSuggestion.OptionalText` | src/app/field-name-suggestion/page.tsx:34 | The empty text becomes absent. Any other text is passed on unchanged. |
| `FieldNameSuggestion.SuggestionRequest` | src/app/field-name-suggestion/page.tsx:31-35 | The request carries the description as typed and the parsed name list, which is always present. The framework requirements are absent exactly when their text is empty, and otherwise are that text unchanged. |
| `AppShell.CurrentPageTitle` | src/components/layout/app-shell.tsx:43-58 | A known path gets its mapped title. Any other path gets "LexiField". The title is never empty. |
| `AppShell.IsActive` | src/components/layout/app-shell.tsx:78 | An active item's href is always a prefix of the pathname, and every item is active on its own href. |
| `AppShell.RootActiveOnlyAtRoot` | src/components/layout/app-shell.tsx:78 | The root item `/` is active exactly when the pathname is `/`. |
| `AppShell.OtherItemActiveByPrefix` | src/components/layout/app-shell.tsx:78 | Every other item is active exactly when the pathname starts with its href. |
| `AppShell.HrefsPrefixFree` | src/components/layout/app-shell.tsx:34-41 | No non-root href is a prefix of another. |
| `AppShell.PrefixesComparable` | src/components/layout/app-shell.tsx:78 | Two prefixes of one pathname are prefixes of each other. This is the step from prefix matching to uniqueness. |
| `AppShell.AtMostOneActive` | src/components/layout/app-shell.tsx:77-78 | For any pathname, at most one sidebar item is active. |
| `AppShell.SettingsActivatesNothing` | src/components/layout/app-shell.tsx:34-51 | `/settings` activates no sidebar item but has the title "Application Settings". |
| `Strings.ToLowerCase` | src/app/data-dictionary-content.tsx:109 | Lower-casing keeps the length, maps each character on its own and leaves no upper-case ASCII letter. |
| `Strings.ToLowerCaseIdempotent` | src/app/field-validation/page.tsx:49 | Lower-casing twice is lower-casing once. |
| `Strings.Includes` | src/app/field-validation/page.tsx:80 | The left-to-right scan answers true exactly when the second string occurs at some offset of the first. |
| `Strings.IncludesEmptyAndSelf` | src/app/field-validation/page.tsx:80 | Every string contains the empty string and itself, so neither can be an alternative to it. |
| `Strings.StartsWith` | src/components/layout/app-shell.tsx:78 | `s` starts with `p` exactly when `p` is no longer than `s` and is as many leading characters of `s` as it has. |
| `Strings.Trim` | src/app/field-name-suggestion/page.tsx:33 | The result is an infix `s[i..j]` of the input where everything before `i` and from `j` on is whitespace, so only leading and trailing whitespace is removed. It neither starts nor ends with whitespace and holds only characters of the input. It is empty exactly when the input is all whitespace. |
| `Strings.StripsToBothEnds` | src/app/field-name-suggestion/page.tsx:33 | Removing a whitespace prefix up to a non-whitespace character, then a whitespace suffix likewise, leaves an infix with only whitespace around it that neither starts nor ends with whitespace, holds only characters of the input and is empty exactly when the input is all whitespace. |
| `Strings.Split` | src/app/field-name-suggestion/page.tsx:33 | There is one more part than there are separators, none contains the separator, and joining them with the separator gives the input back. |
| `Strings.SplitJoin` | src/app/field-name-suggestion/page.tsx:33 | Splitting a join of separator-free parts gives the parts back. |
| `Strings.SplitConcat` | src/app/field-name-suggestion/page.tsx:33 | Splitting two texts joined by one separator gives the parts of each, one after the other. |
| `Sequences.Filter` | src/app/data-dictionary-content.tsx:107 | The kept elements all pass and come from the input. Every passing element is kept. The result is an order-preserving subsequence. |
| `Sequences.Map` | src/app/field-name-suggestion/page.tsx:33 | The result has one element per input element, in order, each the image of the input element at the same index. |
| `Sequences.FilterAppend` | src/app/data-dictionary-content.tsx:107 | Filtering distributes over concatenation. |
| `Sequences.FilterKeepsAll` | src/app/data-dictionary-content.tsx:107 | A filter every element passes returns its input unchanged. |
| `Sequences.MapAppend` | src/app/field-name-suggestion/page.tsx:33 | Mapping distributes over concatenation. |
| `Sequences.FilterCongruent` | src/app/data-dictionary-content.tsx:107 | Two tests that agree on every element give the same result. |

## Left out

- `src/ai/flows/suggest-field-name.ts` and `src/ai/flows/generate-field-description.ts` are not part of this model. They forward prompt templates to an external model. Their answer is an unconstrained input (`SuggestionReply`).
- The description-generation, import/export and settings pages, the root layout and the logo are not part of this model. They only forward form fields, stub file handling or hold static markup.
- `handleExport` (JSON serialisation and a browser download) is left out because it is I/O.
- React rendering, `useTransition` scheduling, the loading flag, result icons and colours are left out as UI. The validation page's `setValidationResult`/`setError` pair is modelled as the `Result` of `ValidateFieldName`. Toasts are modelled only on the masking page.
- The built-in sample entries (`mockData`) are not modelled. The search takes any list of entries.
- The form setters for the page fields are not modelled. The masking page's fields are public and assigned directly.
- The JavaScript regular-expression engine is not modelled. The pattern is a language definition, proved equal to the character test that the model runs.
- `Strings.ToLowerCase`: maps only ASCII `A`-`Z`. JavaScript also lower-cases other Unicode letters, which can change whether a search term or a reserved word matches for non-ASCII input.
- String lengths count Unicode scalar values, not UTF-16 code units. A name with characters outside the Basic Multilingual Plane is therefore shorter here than `name.length` in the page, both for the 30-character limit and for the 20-character cut of examples.
- `localValidation.status || "info"`: the local checks always set a status, so the fallback to info is not modelled. The final status is proved never to be info.
- The sidebar label field is named `caption`, because `label` is a Dafny keyword.
- Title lookups for pathnames that are names of `Object.prototype` members (such as `constructor`) are not modelled. Real pathnames start with `/`, so they cannot collide with those names.
