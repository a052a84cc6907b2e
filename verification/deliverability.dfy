/** Turns the provider's region code, DPV confirmation code and verdict flags into
    a deliverability verdict with an ordered list of issues. */
module Deliverability {
  import opened Wrappers
  import opened JsString
  import opened ValidationTypes

  /** The issue vocabulary; `WireName` gives the stable strings of the API. */
  datatype Issue =
    | DpvNotConfirmed
    | MissingSecondary
    | UnconfirmedComponents
    | InsufficientAddress
    | NonUsAddress

  function WireName(issue: Issue): string {
    match issue
    case DpvNotConfirmed => "DPV_NOT_CONFIRMED"
    case MissingSecondary => "MISSING_SECONDARY"
    case UnconfirmedComponents => "UNCONFIRMED_COMPONENTS"
    case InsufficientAddress => "INSUFFICIENT_ADDRESS"
    case NonUsAddress => "NON_US_ADDRESS"
  }

  /** Distinct issues have distinct wire names, so the wire list loses nothing. */
  lemma WireNameInjective(a: Issue, b: Issue)
    ensures WireName(a) == WireName(b) ==> a == b
  {
  }

  /** The position of each check in the assessor. */
  function CheckOrder(issue: Issue): nat {
    match issue
    case NonUsAddress => 0
    case MissingSecondary => 1
    case UnconfirmedComponents => 2
    case InsufficientAddress => 3
    case DpvNotConfirmed => 4
  }

  /** Issues listed in strictly increasing check order: no duplicates, fixed order. */
  predicate InCheckOrder(issues: seq<Issue>) {
    forall i, j :: 0 <= i < j < |issues| ==> CheckOrder(issues[i]) < CheckOrder(issues[j])
  }

  datatype Assessment = Assessment(
    isDeliverable: bool,
    issues: seq<Issue>,
    missingSecondary: bool,
    dpvConfirmation: Option<string>,
    dpvFootnotes: Option<string>
  )

  /** `isMissingSecondary`: DPV codes S and D mean a unit designator is missing. */
  function IsMissingSecondary(dpvConfirmation: Option<string>): (r: bool)
    ensures r <==> dpvConfirmation == Some("S") || dpvConfirmation == Some("D")
  {
    if !Truthy(dpvConfirmation) then false
    else dpvConfirmation.value == "S" || dpvConfirmation.value == "D"
  }

  /** The region codes that count as US: empty, and every letter case of "us". */
  const UsSpellings: set<string> := {"", "US", "Us", "uS", "us"}

  /** `regionCodeIsUs`: the upper-cased region code is absent, empty or "US". An
      absent code, an empty one and every case spelling of "us" count as US;
      nothing else does. */
  predicate RegionIsUs(regionCode: Option<string>): (isUs: bool)
    ensures isUs <==> regionCode.None? || regionCode.value in UsSpellings
  {
    match regionCode
    case None => true
    case Some(code) =>
      UpperIsUs(code);
      var upper := ToUpperAscii(code);
      !Truthy(Some(upper)) || upper == "US"
  }

  /** When each issue applies, stated one condition per issue, independently of
      how the assessor collects them. */
  predicate Applies(result: ValidationResult, issue: Issue) {
    match issue
    case NonUsAddress => RegionCodeOf(result).Some? && RegionCodeOf(result).value !in UsSpellings
    case MissingSecondary => DpvConfirmationOf(result) in {Some("S"), Some("D")}
    case UnconfirmedComponents => HasUnconfirmedComponentsOf(result) == Some(true)
    case InsufficientAddress => AddressCompleteOf(result) == Some(false)
    case DpvNotConfirmed => DpvConfirmationOf(result) != Some("Y")
  }

  /** The five checks in the order the assessor runs them. */
  const Checks: seq<Issue> :=
    [NonUsAddress, MissingSecondary, UnconfirmedComponents, InsufficientAddress, DpvNotConfirmed]

  /** Every issue has a check, and the checks run in check order. */
  lemma ChecksCoverAll()
    ensures InCheckOrder(Checks)
    ensures forall k :: k in Checks
  {
    forall k
      ensures k in Checks
    {
      assert Checks[CheckOrder(k)] == k;
    }
  }

  /** Running `checks` one after another, pushing each issue whose test passes. */
  function PushFlagged(checks: seq<Issue>, flagged: Issue -> bool): (pushed: seq<Issue>)
    ensures forall k :: k in pushed <==> k in checks && flagged(k)
    ensures forall j :: 0 <= j < |pushed| ==> pushed[j] in checks
  {
    if |checks| == 0 then []
    else (if flagged(checks[0]) then [checks[0]] else []) + PushFlagged(checks[1..], flagged)
  }

  lemma TailInCheckOrder(xs: seq<Issue>)
    requires |xs| > 0 && InCheckOrder(xs)
    ensures InCheckOrder(xs[1..])
  {
    forall i, j | 0 <= i < j < |xs| - 1
      ensures CheckOrder(xs[1..][i]) < CheckOrder(xs[1..][j])
    {
      assert xs[1..][i] == xs[i + 1] && xs[1..][j] == xs[j + 1];
    }
  }

  lemma ConsInCheckOrder(issue: Issue, rest: seq<Issue>)
    requires InCheckOrder(rest)
    requires forall j :: 0 <= j < |rest| ==> CheckOrder(issue) < CheckOrder(rest[j])
    ensures InCheckOrder([issue] + rest)
  {
    var r := [issue] + rest;
    forall i, j | 0 <= i < j < |r|
      ensures CheckOrder(r[i]) < CheckOrder(r[j])
    {
      assert r[j] == rest[j - 1];
      if i > 0 {
        assert r[i] == rest[i - 1];
      }
    }
  }

  /** Pushing in check order keeps the pushed list in check order. */
  lemma {:induction false} PushFlaggedInCheckOrder(checks: seq<Issue>, flagged: Issue -> bool)
    requires InCheckOrder(checks)
    ensures InCheckOrder(PushFlagged(checks, flagged))
  {
    if |checks| > 0 {
      var rest := PushFlagged(checks[1..], flagged);
      TailInCheckOrder(checks);
      PushFlaggedInCheckOrder(checks[1..], flagged);
      if flagged(checks[0]) {
        forall j | 0 <= j < |rest|
          ensures CheckOrder(checks[0]) < CheckOrder(rest[j])
        {
          var m :| 0 <= m < |checks[1..]| && checks[1..][m] == rest[j];
          assert checks[m + 1] == rest[j];
        }
        ConsInCheckOrder(checks[0], rest);
      }
    }
  }

  /** The test the assessor runs for each issue, as written. */
  predicate Flagged(result: ValidationResult, issue: Issue) {
    var dpv := DpvConfirmationOf(result);
    match issue
    case NonUsAddress => !RegionIsUs(RegionCodeOf(result))
    case MissingSecondary => IsMissingSecondary(dpv)
    case UnconfirmedComponents => HasUnconfirmedComponentsOf(result) == Some(true)
    case InsufficientAddress => AddressCompleteOf(result) == Some(false)
    case DpvNotConfirmed => dpv != Some("Y")
  }

  /** The `issues` array as the assessor pushes onto it, check by check. */
  function CollectIssues(result: ValidationResult): (issues: seq<Issue>)
    ensures forall k :: k in issues <==> Applies(result, k)
    ensures InCheckOrder(issues)
  {
    ChecksCoverAll();
    PushFlaggedInCheckOrder(Checks, k => Flagged(result, k));
    assert forall k :: Flagged(result, k) <==> Applies(result, k) by {
      forall k
        ensures Flagged(result, k) <==> Applies(result, k)
      {
        FlaggedIffApplies(result, k);
      }
    }
    PushFlagged(Checks, k => Flagged(result, k))
  }

  /** Each test as written is the condition stated for its issue. */
  lemma FlaggedIffApplies(result: ValidationResult, issue: Issue)
    ensures Flagged(result, issue) <==> Applies(result, issue)
  {
  }

  /** `assessDeliverability`. */
  function AssessDeliverability(result: ValidationResult): (a: Assessment)
    ensures a.isDeliverable <==> forall k :: !Applies(result, k)
    ensures a.isDeliverable ==> a.dpvConfirmation == Some("Y") && !a.missingSecondary
    ensures forall k :: k in a.issues <==> !a.isDeliverable && Applies(result, k)
    ensures InCheckOrder(a.issues)
    ensures a.missingSecondary <==> a.dpvConfirmation in {Some("S"), Some("D")}
    ensures a.dpvConfirmation == DpvConfirmationOf(result)
    ensures a.dpvFootnotes == DpvFootnotesOf(result)
  {
    var dpv := DpvConfirmationOf(result);
    var issues := CollectIssues(result);
    var regionIsUs := RegionIsUs(RegionCodeOf(result));
    var missingSecondary := IsMissingSecondary(dpv);
    var hasUnconfirmed := HasUnconfirmedComponentsOf(result) == Some(true);
    var addressComplete := AddressCompleteOf(result);
    var isDeliverable :=
      regionIsUs && dpv == Some("Y") && !missingSecondary && !hasUnconfirmed
      && addressComplete != Some(false);
    assert !isDeliverable ==> exists k :: Applies(result, k) by {
      if !regionIsUs { assert Applies(result, NonUsAddress); }
      else if dpv != Some("Y") { assert Applies(result, DpvNotConfirmed); }
      else if hasUnconfirmed { assert Applies(result, UnconfirmedComponents); }
      else if addressComplete == Some(false) { assert Applies(result, InsufficientAddress); }
    }
    Assessment(
      isDeliverable := isDeliverable,
      issues := if isDeliverable then [] else issues,
      missingSecondary := missingSecondary,
      dpvConfirmation := dpv,
      dpvFootnotes := DpvFootnotesOf(result)
    )
  }

  // ---------------------------------------------------------------------------
  // Properties
  // ---------------------------------------------------------------------------

  /** The verdict is deliverable exactly when the collected list is empty, so
      emptying the list on a deliverable verdict never removes anything: the
      emitted issues are always the collected ones. */
  lemma DeliverableIffNoIssues(result: ValidationResult)
    ensures AssessDeliverability(result).isDeliverable <==> CollectIssues(result) == []
    ensures AssessDeliverability(result).issues == CollectIssues(result)
  {
    var a := AssessDeliverability(result);
    var c := CollectIssues(result);
    if c != [] {
      assert c[0] in c;
    }
  }

  /** A missing secondary unit is never DPV-confirmed, so MISSING_SECONDARY never
      appears without DPV_NOT_CONFIRMED. */
  lemma MissingSecondaryImpliesDpvNotConfirmed(result: ValidationResult)
    ensures MissingSecondary in AssessDeliverability(result).issues
            ==> DpvNotConfirmed in AssessDeliverability(result).issues
  {
  }

  lemma HeadIsMember(xs: seq<Issue>)
    ensures |xs| > 0 ==> xs[0] in xs
  {
  }

  /** In a list in check order the head is the only occurrence of itself, so the
      tail holds exactly the other members. */
  lemma TailMembers(xs: seq<Issue>, k: Issue)
    requires |xs| > 0 && InCheckOrder(xs)
    ensures k in xs[1..] <==> k in xs && k != xs[0]
  {
    if k in xs[1..] {
      var m :| 0 <= m < |xs[1..]| && xs[1..][m] == k;
      assert xs[m + 1] == k;
    }
    if k in xs && k != xs[0] {
      var m :| 0 <= m < |xs| && xs[m] == k;
      assert xs[1..][m - 1] == k;
    }
  }

  /** The head of a list in check order has the least check order of its members. */
  lemma HeadIsLeast(xs: seq<Issue>, k: Issue)
    requires |xs| > 0 && InCheckOrder(xs) && k in xs
    ensures CheckOrder(xs[0]) <= CheckOrder(k)
  {
    var m :| 0 <= m < |xs| && xs[m] == k;
  }

  /** Two issue lists in check order with the same members are the same list. */
  lemma {:induction false} InCheckOrderUnique(xs: seq<Issue>, ys: seq<Issue>)
    requires InCheckOrder(xs) && InCheckOrder(ys)
    requires forall k :: k in xs <==> k in ys
    ensures xs == ys
    decreases |xs|
  {
    if |xs| == 0 || |ys| == 0 {
      HeadIsMember(xs);
      HeadIsMember(ys);
    } else {
      HeadIsLeast(xs, ys[0]);
      HeadIsLeast(ys, xs[0]);
      assert CheckOrder(xs[0]) == CheckOrder(ys[0]);
      forall k
        ensures k in xs[1..] <==> k in ys[1..]
      {
        TailMembers(xs, k);
        TailMembers(ys, k);
      }
      TailInCheckOrder(xs);
      TailInCheckOrder(ys);
      InCheckOrderUnique(xs[1..], ys[1..]);
      assert xs == [xs[0]] + xs[1..] && ys == [ys[0]] + ys[1..];
    }
  }

  /** The issue list is determined by which conditions apply: any list in check
      order holding exactly the applicable issues is the one the assessor emits
      on an undeliverable result. */
  lemma IssuesDeterminedByConditions(result: ValidationResult, expected: seq<Issue>)
    requires InCheckOrder(expected)
    requires forall k :: k in expected <==> Applies(result, k)
    ensures AssessDeliverability(result).issues == expected
  {
    DeliverableIffNoIssues(result);
    InCheckOrderUnique(CollectIssues(result), expected);
  }

  /** A DPV-confirmed, complete, fully confirmed US address is deliverable with no issues. */
  lemma ConfirmedUsExample(result: ValidationResult)
    requires DpvConfirmationOf(result) == Some("Y") && AddressCompleteOf(result) == Some(true)
    requires HasUnconfirmedComponentsOf(result) == Some(false) && RegionCodeOf(result) == Some("US")
    ensures AssessDeliverability(result).isDeliverable
    ensures AssessDeliverability(result).issues == []
  {
    forall k
      ensures !Applies(result, k)
    {
    }
  }

  /** A DPV code of "S" flags the missing unit and is not a confirmation. */
  lemma SecondaryMissingExample(result: ValidationResult)
    requires DpvConfirmationOf(result) == Some("S")
    ensures AssessDeliverability(result).missingSecondary
    ensures !AssessDeliverability(result).isDeliverable
    ensures MissingSecondary in AssessDeliverability(result).issues
    ensures DpvNotConfirmed in AssessDeliverability(result).issues
  {
    assert Applies(result, MissingSecondary);
    assert Applies(result, DpvNotConfirmed);
  }

  /** A Canadian region code makes the address undeliverable as non-US. */
  lemma ForeignRegionExample(result: ValidationResult)
    requires RegionCodeOf(result) == Some("CA")
    ensures !AssessDeliverability(result).isDeliverable
    ensures NonUsAddress in AssessDeliverability(result).issues
  {
    assert Applies(result, NonUsAddress);
  }
}
