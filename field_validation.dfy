/** The field-name validation engine: three local naming checks
    (camelCase, at most 30 characters, not a reserved word) that escalate a
    status, then a merge that folds in the answer of the external
    name-suggestion service and picks the message shown for the status. */
module FieldValidation {
  import opened Wrappers
  import opened Sequences
  import opened Strings
  import opened Types

  datatype ValidationStatus = Success | Warning | Error | Info

  /** The local checks, in the order they are applied. */
  datatype Violation = CaseConvention | TooLong | ReservedWord

  /** What the local checks return: a status and, when a check failed, the
      messages (absent rather than empty when none failed). */
  datatype LocalValidation = LocalValidation(status: ValidationStatus, details: Option<seq<string>>)

  datatype ValidationResult = ValidationResult(
    status: ValidationStatus,
    message: string,
    details: seq<string>,
    suggestedAlternative: Option<string>)

  const MaxLength: nat := 30
  const ReservedWords: seq<string> := ["id", "type", "object"]

  const CaseConventionMessage: string := "Field name does not follow camelCase convention."
  const TooLongMessage: string := "Field name exceeds maximum length of 30 characters."
  const FallbackMessage: string := "Validation checks performed."
  const UnexpectedErrorMessage: string := "An unexpected error occurred."

  function ReservedWordMessage(name: string): string
  {
    "Field name '" + name + "' is a reserved word."
  }

  /** Severity order: Success < Warning < Error; Info, which the checks never
      produce, sits below them. */
  function Rank(s: ValidationStatus): nat
  {
    match s
    case Info => 0
    case Success => 1
    case Warning => 2
    case Error => 3
  }

  /** Position of a check in the order the checks are applied. */
  function Order(v: Violation): nat
  {
    match v
    case CaseConvention => 0
    case TooLong => 1
    case ReservedWord => 2
  }

  // ---------------------------------------------------------------------
  // The camelCase pattern ^[a-z]+(?:[A-Z][a-z]*)*$ as a language, and the
  // character test the engine uses in its place.

  predicate AllLower(s: string)
  {
    forall i :: 0 <= i < |s| ==> IsLowerAscii(s[i])
  }

  predicate AllLetters(s: string)
  {
    forall i :: 0 <= i < |s| ==> IsAsciiLetter(s[i])
  }

  /** Matches (?:[A-Z][a-z]*)* : zero or more groups, each an upper-case
      letter followed by lower-case letters. */
  ghost predicate MatchesGroups(s: string)
    decreases |s|
  {
    s == [] ||
    (IsUpperAscii(s[0]) &&
     exists k :: 1 <= k <= |s| && AllLower(s[1..k]) && MatchesGroups(s[k..]))
  }

  /** Matches the whole pattern ^[a-z]+(?:[A-Z][a-z]*)*$ . */
  ghost predicate MatchesCamelCasePattern(s: string)
  {
    exists k :: 1 <= k <= |s| && AllLower(s[..k]) && MatchesGroups(s[k..])
  }

  /** The camelCase test: non-empty, starts with a lower-case ASCII letter,
      and holds only ASCII letters (so no digit and no underscore). */
  predicate IsCamelCase(name: string)
  {
    |name| > 0 && IsLowerAscii(name[0]) && AllLetters(name)
  }

  /** Length of the run of lower-case letters that starts `s`. */
  function LowerRun(s: string): (n: nat)
    ensures n <= |s| && AllLower(s[..n])
    ensures n < |s| ==> !IsLowerAscii(s[n])
  {
    if s != [] && IsLowerAscii(s[0]) then
      var m := LowerRun(s[1..]);
      assert s[..m + 1] == [s[0]] + s[1..][..m];
      m + 1
    else 0
  }

  lemma {:induction false} MatchesGroupsExact(s: string)
    ensures MatchesGroups(s) <==> (s == [] || IsUpperAscii(s[0])) && AllLetters(s)
    decreases |s|
  {
    if s != [] {
      if MatchesGroups(s) {
        var k :| 1 <= k <= |s| && AllLower(s[1..k]) && MatchesGroups(s[k..]);
        MatchesGroupsExact(s[k..]);
        forall i | 0 <= i < |s| ensures IsAsciiLetter(s[i]) {
          if 1 <= i < k {
            assert s[i] == s[1..k][i - 1];
          } else if k <= i {
            assert s[i] == s[k..][i - k];
          }
        }
      }
      if IsUpperAscii(s[0]) && AllLetters(s) {
        var k := 1 + LowerRun(s[1..]);
        assert s[1..][..k - 1] == s[1..k];
        assert AllLetters(s[k..]);
        if k < |s| {
          assert s[k..][0] == s[1..][k - 1];
        }
        MatchesGroupsExact(s[k..]);
      }
    }
  }

  /** The pattern accepts exactly the strings that start with an ASCII
      lower-case letter and contain only ASCII letters. */
  lemma CamelCasePatternExact(s: string)
    ensures MatchesCamelCasePattern(s) <==> IsCamelCase(s)
  {
    if MatchesCamelCasePattern(s) {
      var k :| 1 <= k <= |s| && AllLower(s[..k]) && MatchesGroups(s[k..]);
      MatchesGroupsExact(s[k..]);
      assert s[0] == s[..k][0];
      forall i | 0 <= i < |s| ensures IsAsciiLetter(s[i]) {
        if i < k {
          assert s[i] == s[..k][i];
        } else {
          assert s[i] == s[k..][i - k];
        }
      }
    }
    if IsCamelCase(s) {
      var k := LowerRun(s);
      assert s[..1] == [s[0]];
      assert k >= 1;
      assert AllLetters(s[k..]);
      MatchesGroupsExact(s[k..]);
      assert MatchesGroups(s[k..]);
    }
  }

  // ---------------------------------------------------------------------
  // The local checks.

  predicate IsReserved(name: string)
  {
    ToLowerCase(name) in ReservedWords
  }

  /** The reserved-word check ignores case: a name is reserved exactly when
      its lower-cased form is. */
  lemma ReservedIgnoresCase(name: string)
    ensures IsReserved(name) <==> IsReserved(ToLowerCase(name))
  {
    ToLowerCaseIdempotent(name);
  }

  /** The checks a name fails, each at most once, in the order they are
      applied: camelCase, then length, then reserved word. */
  function Violations(name: string): (vs: seq<Violation>)
    ensures CaseConvention in vs <==> !IsCamelCase(name)
    ensures TooLong in vs <==> |name| > MaxLength
    ensures ReservedWord in vs <==> IsReserved(name)
    ensures forall i, j :: 0 <= i < j < |vs| ==> Order(vs[i]) < Order(vs[j])
  {
    (if IsCamelCase(name) then [] else [CaseConvention])
    + (if |name| > MaxLength then [TooLong] else [])
    + (if IsReserved(name) then [ReservedWord] else [])
  }

  function ViolationMessage(name: string, v: Violation): string
  {
    match v
    case CaseConvention => CaseConventionMessage
    case TooLong => TooLongMessage
    case ReservedWord => ReservedWordMessage(name)
  }

  /** The messages of the failed checks, one per failed check, in order. */
  function LocalMessages(name: string): (ms: seq<string>)
    ensures |ms| == |Violations(name)|
  {
    Map(Violations(name), v => ViolationMessage(name, v))
  }

  /** The local status: Error for a reserved word whatever else fails,
      otherwise Warning when some check failed, otherwise Success. */
  function LocalStatus(name: string): (s: ValidationStatus)
    ensures s != Info
    ensures s == Error <==> IsReserved(name)
    ensures s == Warning <==> (!IsCamelCase(name) || |name| > MaxLength) && !IsReserved(name)
    ensures s == Success <==> Violations(name) == []
    ensures s == Success <==> IsCamelCase(name) && |name| <= MaxLength && !IsReserved(name)
  {
    var vs := Violations(name);
    if ReservedWord in vs then Error
    else if vs != [] then Warning
    else Success
  }

  /** Applies the three checks in turn, pushing one message per failed check
      and raising the status as it goes. */
  method PerformLocalValidation(name: string) returns (local: LocalValidation)
    ensures local.status == LocalStatus(name)
    ensures local.status == Success <==> local.details.None?
    ensures local.details.Some? ==> local.details.value == LocalMessages(name)
  {
    var messages: seq<string> := [];
    var status := Success;
    if !IsCamelCase(name) {
      messages := messages + [CaseConventionMessage];
      status := Warning;
    }
    if |name| > MaxLength {
      messages := messages + [TooLongMessage];
      status := Warning;
    }
    if ToLowerCase(name) in ReservedWords {
      messages := messages + [ReservedWordMessage(name)];
      status := Error;
    }
    if |messages| > 0 && status == Success {
      status := Warning;
    }
    assert messages == LocalMessages(name);
    local := LocalValidation(status, if |messages| > 0 then Some(messages) else Option.None);
  }

  /** "userId", the field name of the first sample entry of the data
      dictionary, meets all three naming conventions. */
  lemma UserIdPasses()
    ensures LocalStatus("userId") == Success
  {
    var n := "userId";
    assert AllLetters(n) by {
      forall i | 0 <= i < |n| ensures IsAsciiLetter(n[i]) {
      }
    }
    assert ToLowerCase(n)[0] == 'u';
  }

  /** The placeholder "newCustomer_email" fails the camelCase check only. */
  lemma PlaceholderFailsCamelCase()
    ensures Violations("newCustomer_email") == [CaseConvention]
    ensures LocalStatus("newCustomer_email") == Warning
  {
    var n := "newCustomer_email";
    assert !IsAsciiLetter(n[11]);
    assert |ToLowerCase(n)| == 17;
  }

  /** "id" is reserved in any case, and a digit fails camelCase. */
  lemma ReservedAndDigitExamples()
    ensures LocalStatus("id") == Error && LocalStatus("ID") == Error
    ensures !IsCamelCase("user1")
  {
    assert ToLowerCase("id") == "id" by {
      assert ToLowerCase("id")[0] == 'i' && ToLowerCase("id")[1] == 'd';
    }
    assert ToLowerCase("ID") == "id" by {
      assert ToLowerCase("ID")[0] == 'i' && ToLowerCase("ID")[1] == 'd';
    }
    assert !IsAsciiLetter("user1"[4]);
  }

  // ---------------------------------------------------------------------
  // The merge with the suggestion service's answer.

  /** The request sent to the service to cross-check a name. */
  function CrossCheckRequest(name: string): (req: SuggestFieldNameInput)
    ensures Includes(req.description, name)
    ensures req.existingFieldNames == Some(["orderId", "customerName", "productSku"])
    ensures req.frameworkRequirements.None?
  {
    var prefix := "A field named '";
    var description := prefix + name + "'. Check for potential conflicts or suggest improvements.";
    assert OccursAt(description, name, |prefix|);
    SuggestFieldNameInput(description, Some(["orderId", "customerName", "productSku"]), Option.None)
  }

  /** The suggestion counts as an alternative when it differs from the name
      ignoring case and, compared with case, neither contains the other. */
  predicate IsAlternative(name: string, suggested: string): (alt: bool)
    ensures alt ==> name != [] && suggested != [] && suggested != name
  {
    IncludesEmptyAndSelf(name);
    IncludesEmptyAndSelf(suggested);
    ToLowerCase(suggested) != ToLowerCase(name)
    && !Includes(name, suggested)
    && !Includes(suggested, name)
  }

  /** The reasoning raises a concern when, ignoring case, it mentions
      "conflict" or "ambiguous". */
  predicate RaisesConcern(reasoning: string): (concern: bool)
    ensures concern <==> exists i ::
      || OccursAt(ToLowerCase(reasoning), "conflict", i)
      || OccursAt(ToLowerCase(reasoning), "ambiguous", i)
    ensures concern ==> |reasoning| >= 8
  {
    Includes(ToLowerCase(reasoning), "conflict") || Includes(ToLowerCase(reasoning), "ambiguous")
  }

  /** Whether the answer adds a detail to the verdict. */
  predicate AddsDetail(name: string, out: SuggestFieldNameOutput)
  {
    IsAlternative(name, out.suggestedFieldName) || RaisesConcern(out.reasoning)
  }

  function AlternativeDetail(out: SuggestFieldNameOutput): string
  {
    "AI Suggestion: Consider '" + out.suggestedFieldName + "'. Reasoning: " + out.reasoning
  }

  function ConcernDetail(out: SuggestFieldNameOutput): string
  {
    "AI Concern: " + out.reasoning
  }

  function PassesMessage(name: string): string { "Field name '" + name + "' passes all checks." }
  function CriticalMessage(name: string): string { "Field name '" + name + "' has critical issues." }
  function WarningsMessage(name: string): string { "Field name '" + name + "' has some warnings." }

  /** The message shown for a final status. */
  function StatusMessage(name: string, s: ValidationStatus): (m: string)
    ensures s != Info ==> "Field name '" + name + "' " <= m
    ensures s == Info ==> m == FallbackMessage
  {
    match s
    case Success => PassesMessage(name)
    case Error => CriticalMessage(name)
    case Warning => WarningsMessage(name)
    case Info => FallbackMessage
  }

  /** The message tells the status apart: no two statuses share one. */
  lemma StatusMessageDistinct(name: string, s1: ValidationStatus, s2: ValidationStatus)
    requires s1 != s2
    ensures StatusMessage(name, s1) != StatusMessage(name, s2)
  {
    var k := |"Field name '" + name + "' "|;
    var m1, m2 := StatusMessage(name, s1), StatusMessage(name, s2);
    if s1 == Info || s2 == Info {
      assert m1[0] != m2[0];
    } else {
      assert m1[k] != m2[k] || m1[k + 4] != m2[k + 4];
    }
  }

  /** What the page reports when the call throws. */
  function ThrownMessage(errorMessage: Option<string>): (m: string)
    ensures errorMessage.Some? ==> m == errorMessage.value
    ensures m == [] <==> errorMessage == Some([])
  {
    match errorMessage
    case Some(m) => m
    case None => UnexpectedErrorMessage
  }

  /** One validation request: the local checks, one call to the suggestion
      service with the cross-check request (`service` stands for that call
      and gives its outcome), then the merge. */
  method ValidateFieldName(name: string, service: SuggestFieldNameInput -> SuggestionReply)
    returns (r: Result<ValidationResult, string>)
    ensures var reply := service(CrossCheckRequest(name));
      (r.Err? <==> reply.Threw?)
      && (reply.Threw? ==> r.error == ThrownMessage(reply.errorMessage))
    ensures var reply := service(CrossCheckRequest(name));
      reply.Replied? ==>
      var v, out := r.value, reply.output;
      // the status is never Info and never below the local status
      && v.status != Info
      && Rank(LocalStatus(name)) <= Rank(v.status)
      // the merge raises at most to Warning: Error comes from the local
      // checks alone
      && (v.status == Error <==> LocalStatus(name) == Error)
      // Success becomes Warning only through a detail from the service
      && (v.status == Success <==> LocalStatus(name) == Success && !AddsDetail(name, out))
      && (v.status == Success <==> v.details == [])
      // the local messages come first, then at most one detail
      && LocalMessages(name) <= v.details
      && |v.details| == |LocalMessages(name)| + (if AddsDetail(name, out) then 1 else 0)
      && (IsAlternative(name, out.suggestedFieldName) ==> v.details[|v.details| - 1] == AlternativeDetail(out))
      && (!IsAlternative(name, out.suggestedFieldName) && RaisesConcern(out.reasoning) ==>
            v.details[|v.details| - 1] == ConcernDetail(out))
      // the alternative is the suggestion itself, recorded only when it differs
      && v.suggestedAlternative == (if IsAlternative(name, out.suggestedFieldName) then Some(out.suggestedFieldName) else Option.None)
      && v.message == StatusMessage(name, v.status)
  {
    var local := PerformLocalValidation(name);
    var finalStatus := local.status;
    var finalMessage := FallbackMessage;
    var finalDetails := if local.details.Some? then local.details.value else [];
    var suggestedAlternative: Option<string> := Option.None;

    var reply := service(CrossCheckRequest(name));
    if reply.Threw? {
      return Err(ThrownMessage(reply.errorMessage));
    }
    var ai := reply.output;

    if IsAlternative(name, ai.suggestedFieldName) {
      suggestedAlternative := Some(ai.suggestedFieldName);
      finalDetails := finalDetails + [AlternativeDetail(ai)];
      if finalStatus != Error {
        finalStatus := Warning;
      }
    } else if RaisesConcern(ai.reasoning) {
      finalDetails := finalDetails + [ConcernDetail(ai)];
      if finalStatus != Error {
        finalStatus := Warning;
      }
    }

    if finalStatus == Success && |finalDetails| == 0 {
      finalMessage := PassesMessage(name);
    } else if finalStatus == Error {
      finalMessage := CriticalMessage(name);
    } else if finalStatus == Warning {
      finalMessage := WarningsMessage(name);
    }

    r := Ok(ValidationResult(finalStatus, finalMessage, finalDetails, suggestedAlternative));
  }
}
