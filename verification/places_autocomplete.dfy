/** Address suggestions from the places-autocomplete provider. The HTTP call is
    an input: `fetch` maps the query text to what the call produced. The whole
    operation fails open: every error and every missing piece gives no suggestions. */
module PlacesAutocomplete {
  import opened Wrappers
  import opened JsString

  datatype StructuredFormatting = StructuredFormatting(
    mainText: Option<string>,
    secondaryText: Option<string>
  )

  datatype Prediction = Prediction(
    description: Option<string>,
    placeId: Option<string>,
    structuredFormatting: Option<StructuredFormatting>
  )

  datatype PlacesResponse = PlacesResponse(
    predictions: Option<seq<Prediction>>,
    status: Option<string>,
    errorMessage: Option<string>
  )

  /** What the HTTP call produced: a response whose body may be missing, or a throw
      (network error, timeout, non-2xx status). */
  datatype PlacesFetch = Responded(data: Option<PlacesResponse>) | Threw

  function MainTextOf(p: Prediction): Option<string> {
    if p.structuredFormatting.Some? then p.structuredFormatting.value.mainText else None
  }

  /** `prediction.description || prediction.structured_formatting?.main_text || ''`. */
  function DisplayText(p: Prediction): (text: string)
    ensures Truthy(p.description) ==> text == p.description.value
    ensures !Truthy(p.description) && Truthy(MainTextOf(p)) ==> text == MainTextOf(p).value
    ensures !Truthy(p.description) && !Truthy(MainTextOf(p)) ==> text == ""
  {
    OrElse(p.description, OrElse(MainTextOf(p), Some(""))).GetOr("")
  }

  /** A prediction survives the filter when it has display text and a non-empty place id. */
  predicate Kept(p: Prediction): (kept: bool)
    ensures kept <==> (Truthy(p.description) || Truthy(MainTextOf(p)))
                      && p.placeId.Some? && p.placeId.value != ""
  {
    DisplayText(p) != "" && Truthy(p.placeId)
  }

  /** The `map` to text-or-undefined followed by `filter(Boolean)`. */
  function SuggestionTexts(predictions: seq<Prediction>): (texts: seq<string>)
    ensures |texts| <= |predictions|
    ensures forall k :: 0 <= k < |texts| ==> texts[k] != ""
    ensures forall k :: 0 <= k < |texts| ==>
              exists i :: 0 <= i < |predictions| && Kept(predictions[i]) && texts[k] == DisplayText(predictions[i])
    ensures (forall i :: 0 <= i < |predictions| ==> !Kept(predictions[i])) ==> texts == []
    ensures (forall i :: 0 <= i < |predictions| ==> Kept(predictions[i])) ==> |texts| == |predictions|
  {
    if |predictions| == 0 then []
    else
      var rest := SuggestionTexts(predictions[1..]);
      assert forall k :: 0 <= k < |rest| ==>
        exists i :: 0 <= i < |predictions| && Kept(predictions[i]) && rest[k] == DisplayText(predictions[i]) by {
        forall k | 0 <= k < |rest|
          ensures exists i :: 0 <= i < |predictions| && Kept(predictions[i]) && rest[k] == DisplayText(predictions[i])
        {
          var i :| 0 <= i < |predictions[1..]| && Kept(predictions[1..][i]) && rest[k] == DisplayText(predictions[1..][i]);
          assert predictions[1..][i] == predictions[i + 1];
        }
      }
      if Kept(predictions[0]) then [DisplayText(predictions[0])] + rest else rest
  }

  /** `getAddressSuggestions(input)` with the configured key `apiKey`. */
  function GetAddressSuggestions(apiKey: Option<string>, input: string, fetch: string -> PlacesFetch)
    : (suggestions: seq<string>)
    ensures !Truthy(apiKey) || AllWhitespace(input) ==> suggestions == []
    ensures fetch(input).Threw? ==> suggestions == []
    ensures fetch(input).Responded? && (fetch(input).data.None? || fetch(input).data.value.predictions.None?)
            ==> suggestions == []
    ensures Truthy(apiKey) && !AllWhitespace(input) && fetch(input).Responded?
            && fetch(input).data.Some? && fetch(input).data.value.predictions.Some?
            ==> suggestions == SuggestionTexts(fetch(input).data.value.predictions.value)
    ensures forall k :: 0 <= k < |suggestions| ==> suggestions[k] != ""
  {
    if !Truthy(apiKey) then []
    else if Trim(input) == "" then []
    else match fetch(input)
      case Threw => []
      case Responded(data) =>
        var predictions := if data.Some? then data.value.predictions.GetOr([]) else [];
        SuggestionTexts(predictions)
  }

  // ---------------------------------------------------------------------------
  // Order preservation
  // ---------------------------------------------------------------------------

  /** The positions at or after `from` whose predictions are kept, in order. */
  function KeptPositions(predictions: seq<Prediction>, from: nat): (positions: seq<nat>)
    requires from <= |predictions|
    ensures forall k :: 0 <= k < |positions| ==> from <= positions[k] < |predictions| && Kept(predictions[positions[k]])
    ensures forall k, l :: 0 <= k < l < |positions| ==> positions[k] < positions[l]
    ensures forall i :: from <= i < |predictions| && Kept(predictions[i]) ==> i in positions
    decreases |predictions| - from
  {
    if from == |predictions| then []
    else
      var rest := KeptPositions(predictions, from + 1);
      if Kept(predictions[from]) then [from] + rest else rest
  }

  /** The suggestions are exactly the display texts of the kept predictions, in
      prediction order: the k-th suggestion comes from the k-th kept prediction. */
  lemma {:induction false} SuggestionTextsInOrder(predictions: seq<Prediction>, from: nat)
    requires from <= |predictions|
    ensures var texts := SuggestionTexts(predictions[from..]);
            var positions := KeptPositions(predictions, from);
            |texts| == |positions|
            && forall k :: 0 <= k < |texts| ==> texts[k] == DisplayText(predictions[positions[k]])
    decreases |predictions| - from
  {
    if from < |predictions| {
      var tail := predictions[from + 1..];
      SuggestionTextsInOrder(predictions, from + 1);
      var texts := SuggestionTexts(predictions[from..]);
      var restTexts := SuggestionTexts(tail);
      var positions := KeptPositions(predictions, from);
      var restPositions := KeptPositions(predictions, from + 1);
      assert texts == (if Kept(predictions[from]) then [DisplayText(predictions[from])] else []) + restTexts by {
        assert predictions[from..][1..] == tail;
        assert predictions[from..][0] == predictions[from];
      }
      assert positions == (if Kept(predictions[from]) then [from] else []) + restPositions;
      forall k | 0 <= k < |texts|
        ensures texts[k] == DisplayText(predictions[positions[k]])
      {
        if Kept(predictions[from]) && k > 0 {
          assert texts[k] == restTexts[k - 1] && positions[k] == restPositions[k - 1];
        }
      }
    }
  }
}
