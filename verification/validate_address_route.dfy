/** The decision logic of `POST /validate-address`: the request check, the call to
    the validation provider, standardisation and assessment, the suggestion
    trigger, status selection and payload assembly. The two outbound calls are
    parameters (`upstream`, `suggest`), and the reply records which calls were
    made and with what text. */
module ValidateAddressRoute {
  import opened Wrappers
  import opened JsString
  import opened ValidationTypes
  import opened AddressStandardizer
  import opened Deliverability
  import PlacesAutocomplete

  /** The parsed request body: plain text, or anything that is not a string. */
  datatype RequestBody = TextBody(text: string) | OtherBody

  /** What the validation call threw: an `Error` with its message, or another value. */
  datatype UpstreamError = ErrorThrown(message: string) | NonErrorThrown

  datatype OutboundCall = ValidateCall(address: string) | SuggestCall(address: string)

  datatype Metadata = Metadata(
    zipPlus4: Option<string>,
    dpvConfirmation: Option<string>,
    dpvFootnotes: Option<string>,
    missingSecondary: bool
  )

  datatype Payload = Payload(
    input: string,
    formattedAddress: Option<string>,
    isDeliverable: bool,
    standardized: StandardizedAddress,
    metadata: Metadata,
    issues: seq<Issue>,
    suggestions: seq<string>
  )

  datatype ReplyBody = VerdictBody(payload: Payload) | ErrorBody(error: string, message: string)

  datatype Reply = Reply(status: nat, body: ReplyBody, calls: seq<OutboundCall>)

  /** `knownIssues`: the issues that make suggestions worth fetching. */
  const SuggestionTriggers: set<Issue> := {InsufficientAddress, UnconfirmedComponents, DpvNotConfirmed}

  /** `shouldFetchSuggestions`. */
  predicate ShouldFetchSuggestions(a: Assessment): (fetch: bool)
    ensures fetch <==> !a.isDeliverable && (InsufficientAddress in a.issues
                                            || UnconfirmedComponents in a.issues
                                            || DpvNotConfirmed in a.issues)
  {
    !a.isDeliverable && exists i :: 0 <= i < |a.issues| && a.issues[i] in SuggestionTriggers
  }

  /** The message of the 502 reply. */
  function UpstreamMessage(e: UpstreamError): (message: string)
    ensures e.ErrorThrown? ==> message == e.message
    ensures e.NonErrorThrown? ==> message == "Unknown error"
  {
    match e
    case ErrorThrown(m) => m
    case NonErrorThrown => "Unknown error"
  }

  /** The outbound calls of a request that reached the provider: the validation
      call, then the suggestion call when suggestions are fetched. */
  function VerdictCalls(address: string, fetch: bool): (calls: seq<OutboundCall>)
    ensures |calls| > 0 && calls[0] == ValidateCall(address)
    ensures forall i :: 0 <= i < |calls| ==> calls[i].address == address
    ensures SuggestCall(address) in calls <==> fetch
    ensures |calls| == if fetch then 2 else 1
  {
    [ValidateCall(address)] + (if fetch then [SuggestCall(address)] else [])
  }

  /** The 200/422 reply for a provider result on the trimmed address. */
  function VerdictReply(address: string, result: ValidationResult, suggest: string -> seq<string>): (reply: Reply)
    ensures reply.body.VerdictBody?
    ensures var p := reply.body.payload;
            var a := AssessDeliverability(result);
            && p.input == address
            && p.formattedAddress == FormattedAddressOf(result)
            && p.standardized == StandardizeAddress(result)
            && p.metadata.zipPlus4 == p.standardized.zipPlus4
            && p.isDeliverable == a.isDeliverable && p.issues == a.issues
            && p.metadata.dpvConfirmation == a.dpvConfirmation
            && p.metadata.dpvFootnotes == a.dpvFootnotes
            && p.metadata.missingSecondary == a.missingSecondary
            && (reply.status == 200 <==> p.isDeliverable)
            && (reply.status == 422 <==> !p.isDeliverable)
            && p.suggestions == (if ShouldFetchSuggestions(a) then suggest(address) else [])
            && reply.calls == VerdictCalls(address, ShouldFetchSuggestions(a))
  {
    var standardized := StandardizeAddress(result);
    var deliverability := AssessDeliverability(result);
    var fetch := ShouldFetchSuggestions(deliverability);
    var suggestions := if fetch then suggest(address) else [];
    var payload := Payload(
      input := address,
      formattedAddress := FormattedAddressOf(result),
      isDeliverable := deliverability.isDeliverable,
      standardized := standardized,
      metadata := Metadata(
        zipPlus4 := standardized.zipPlus4,
        dpvConfirmation := deliverability.dpvConfirmation,
        dpvFootnotes := deliverability.dpvFootnotes,
        missingSecondary := deliverability.missingSecondary
      ),
      issues := deliverability.issues,
      suggestions := suggestions
    );
    Reply(if deliverability.isDeliverable then 200 else 422, VerdictBody(payload), VerdictCalls(address, fetch))
  }

  /** The `/validate-address` handler. */
  function HandleValidateAddress(
    body: RequestBody,
    upstream: string -> Result<ValidationResult, UpstreamError>,
    suggest: string -> seq<string>
  ): (reply: Reply)
    ensures reply.status in {200, 400, 422, 502}
    ensures reply.status == 400 <==> body.OtherBody? || AllWhitespace(body.text)
    ensures reply.status == 400 ==>
              reply.body == ErrorBody("INVALID_REQUEST", "address is required") && reply.calls == []
    ensures reply.status == 502 <==> reply.status != 400 && upstream(Trim(body.text)).Failure?
    ensures reply.status == 502 ==>
              reply.body == ErrorBody("UPSTREAM_ERROR", UpstreamMessage(upstream(Trim(body.text)).error))
              && reply.calls == [ValidateCall(Trim(body.text))]
    ensures reply.status in {200, 422} ==>
              reply == VerdictReply(Trim(body.text), upstream(Trim(body.text)).value, suggest)
  {
    if body.OtherBody? || Trim(body.text) == "" then
      Reply(400, ErrorBody("INVALID_REQUEST", "address is required"), [])
    else
      var address := Trim(body.text);
      match upstream(address)
      case Failure(e) =>
        Reply(502, ErrorBody("UPSTREAM_ERROR", UpstreamMessage(e)), [ValidateCall(address)])
      case Success(result) =>
        VerdictReply(address, result, suggest)
  }

  // ---------------------------------------------------------------------------
  // Properties
  // ---------------------------------------------------------------------------

  /** A request that gets past the body check calls the provider first, and every
      outbound call carries the trimmed, non-empty address. */
  lemma CallsUseTrimmedAddress(
    body: RequestBody,
    upstream: string -> Result<ValidationResult, UpstreamError>,
    suggest: string -> seq<string>
  )
    ensures var reply := HandleValidateAddress(body, upstream, suggest);
            reply.status != 400 ==>
              var address := Trim(body.text);
              address != "" && |reply.calls| > 0 && reply.calls[0] == ValidateCall(address)
              && forall i :: 0 <= i < |reply.calls| ==> reply.calls[i].address == address
  {
    var reply := HandleValidateAddress(body, upstream, suggest);
    if reply.status != 400 {
      var address := Trim(body.text);
      if upstream(address).Success? {
        var verdict := VerdictReply(address, upstream(address).value, suggest);
        assert reply == verdict;
      }
    }
  }

  /** Suggestions are fetched exactly when the DPV code is not "Y", a component is
      unconfirmed or the address is incomplete; a non-US region alone never
      triggers them. */
  lemma SuggestionTrigger(result: ValidationResult)
    ensures ShouldFetchSuggestions(AssessDeliverability(result)) <==>
              DpvConfirmationOf(result) != Some("Y")
              || HasUnconfirmedComponentsOf(result) == Some(true)
              || AddressCompleteOf(result) == Some(false)
  {
    var a := AssessDeliverability(result);
    if DpvConfirmationOf(result) != Some("Y") {
      assert Applies(result, DpvNotConfirmed);
      assert DpvNotConfirmed in a.issues;
    } else if HasUnconfirmedComponentsOf(result) == Some(true) {
      assert Applies(result, UnconfirmedComponents);
      assert UnconfirmedComponents in a.issues;
    } else if AddressCompleteOf(result) == Some(false) {
      assert Applies(result, InsufficientAddress);
      assert InsufficientAddress in a.issues;
    } else {
      forall i | 0 <= i < |a.issues|
        ensures a.issues[i] !in SuggestionTriggers
      {
        assert a.issues[i] in a.issues;
      }
    }
  }

  /** On a verdict reply the status is 200 exactly when no issue is reported. */
  lemma VerdictStatusReflectsIssues(address: string, result: ValidationResult, suggest: string -> seq<string>)
    ensures var reply := VerdictReply(address, result, suggest);
            reply.status == 200 <==> reply.body.payload.issues == []
  {
    DeliverableIffNoIssues(result);
  }

  /** A deliverable verdict never carries suggestions and never calls for them. */
  lemma DeliverableFetchesNothing(address: string, result: ValidationResult, suggest: string -> seq<string>)
    requires AssessDeliverability(result).isDeliverable
    ensures VerdictReply(address, result, suggest).body.payload.suggestions == []
    ensures VerdictReply(address, result, suggest).calls == [ValidateCall(address)]
  {
  }

  /** Wired to the places provider, a verdict reply only ever suggests non-empty
      texts. */
  lemma SuggestionsFromPlaces(
    body: RequestBody,
    upstream: string -> Result<ValidationResult, UpstreamError>,
    apiKey: Option<string>,
    fetch: string -> PlacesAutocomplete.PlacesFetch
  )
    ensures var suggest := (a: string) => PlacesAutocomplete.GetAddressSuggestions(apiKey, a, fetch);
            var reply := HandleValidateAddress(body, upstream, suggest);
            reply.body.VerdictBody? ==>
              forall k :: 0 <= k < |reply.body.payload.suggestions| ==> reply.body.payload.suggestions[k] != ""
  {
  }
}
