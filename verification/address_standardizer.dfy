/** Maps a provider validation result onto the service's canonical address shape:
    number, street, city, state, zip and ZIP+4. Total: every field is optional. */
module AddressStandardizer {
  import opened Wrappers
  import opened JsString
  import opened ValidationTypes

  datatype StandardizedAddress = StandardizedAddress(
    number: Option<string>,
    street: Option<string>,
    city: Option<string>,
    state: Option<string>,
    zip: Option<string>,
    zipPlus4: Option<string>
  )

  // ---------------------------------------------------------------------------
  // Component lookup
  // ---------------------------------------------------------------------------

  /** `component.componentName?.text`. */
  function TextOf(component: AddressComponent): Option<string> {
    if component.componentName.Some? then component.componentName.value.text else None
  }

  /** Position `i` holds the first component of the requested type. */
  predicate IsFirstMatch(components: seq<AddressComponent>, componentType: string, i: int) {
    0 <= i < |components| && components[i].componentType == Some(componentType)
    && forall j :: 0 <= j < i ==> components[j].componentType != Some(componentType)
  }

  /** `components.find(c => c.componentType === componentType)?.componentName?.text`:
      the text of the first component of that type, absent when none has it, and
      absent when that first one has no text, whatever later matches hold. */
  function FindIn(components: seq<AddressComponent>, componentType: string): (r: Option<string>)
    ensures (forall i :: 0 <= i < |components| ==> components[i].componentType != Some(componentType))
              ==> r == None
    ensures forall i :: IsFirstMatch(components, componentType, i) ==> r == TextOf(components[i])
    ensures r.Some? ==> exists i :: IsFirstMatch(components, componentType, i) && r == TextOf(components[i])
  {
    if |components| == 0 then None
    else if components[0].componentType == Some(componentType) then
      assert IsFirstMatch(components, componentType, 0);
      TextOf(components[0])
    else
      var r := FindIn(components[1..], componentType);
      assert forall i :: IsFirstMatch(components, componentType, i) ==>
        i > 0 && IsFirstMatch(components[1..], componentType, i - 1);
      assert forall i :: IsFirstMatch(components[1..], componentType, i) ==>
        IsFirstMatch(components, componentType, i + 1);
      r
  }

  /** `findComponent`: searches the result's structured components, absent when
      the result carries no component list at all. */
  function FindComponent(result: ValidationResult, componentType: string): (r: Option<string>)
    ensures ComponentsOf(result).None? ==> r == None
    ensures ComponentsOf(result).Some? ==> r == FindIn(ComponentsOf(result).value, componentType)
  {
    match ComponentsOf(result)
    case None => None
    case Some(components) => FindIn(components, componentType)
  }

  // ---------------------------------------------------------------------------
  // Street and number
  // ---------------------------------------------------------------------------

  /** `deriveStreet`: a non-empty `route` component, else the first address line
      verbatim (possibly empty), else absent. */
  function DeriveStreet(result: ValidationResult): (r: Option<string>)
    ensures Truthy(FindComponent(result, "route")) ==> r == FindComponent(result, "route")
    ensures !Truthy(FindComponent(result, "route")) ==> r == FirstAddressLine(result)
  {
    var route := FindComponent(result, "route");
    if Truthy(route) then route else FirstAddressLine(result)
  }

  /** `/^\d+/.test(token)`: the token starts with an ASCII digit. */
  predicate StartsWithDigit(token: string) {
    |token| > 0 && IsAsciiDigit(token[0])
  }

  /** `line.split(' ')[0]`: the text before the first single space. */
  function FirstToken(line: string): (token: string)
    ensures token <= line && ' ' !in token
    ensures |token| < |line| ==> line[|token|] == ' '
  {
    SplitHead(line, ' ');
    Split(line, ' ')[0]
  }

  /** `deriveNumber`: a non-empty `street_number` component; otherwise the first
      space-delimited token of a non-empty first address line, whole, provided
      it starts with a digit; otherwise absent. */
  function DeriveNumber(result: ValidationResult): (r: Option<string>)
    ensures Truthy(FindComponent(result, "street_number")) ==> r == FindComponent(result, "street_number")
    ensures !Truthy(FindComponent(result, "street_number")) ==>
              (r.Some? <==> Truthy(FirstAddressLine(result))
                            && StartsWithDigit(FirstToken(FirstAddressLine(result).value)))
    ensures !Truthy(FindComponent(result, "street_number")) && r.Some? ==>
              r.value <= FirstAddressLine(result).value && ' ' !in r.value && StartsWithDigit(r.value)
              && r.value == FirstToken(FirstAddressLine(result).value)
              && (|r.value| < |FirstAddressLine(result).value| ==> FirstAddressLine(result).value[|r.value|] == ' ')
  {
    var streetNumber := FindComponent(result, "street_number");
    if Truthy(streetNumber) then streetNumber
    else
      var line := FirstAddressLine(result);
      if !Truthy(line) then None
      else
        var token := FirstToken(line.value);
        if StartsWithDigit(token) then Some(token) else None
  }

  // ---------------------------------------------------------------------------
  // Postal code
  // ---------------------------------------------------------------------------

  datatype PostalSplit = PostalSplit(zip: Option<string>, zipPlus4: Option<string>)

  /** The postal-code branch of `standardizeAddress`:
      - absent or empty: both unset;
      - with a hyphen: zip is the text before the first hyphen; ZIP+4 is
        `zip-second` when the second hyphen-separated segment is non-empty,
        otherwise the code unchanged (later segments are dropped);
      - longer than 5 characters: zip is the first 5, ZIP+4 is `zip-rest`;
      - otherwise: zip is the code and ZIP+4 is unset. */
  function SplitPostalCode(postalCode: Option<string>): (r: PostalSplit)
    ensures !Truthy(postalCode) ==> r.zip.None? && r.zipPlus4.None?
    ensures Truthy(postalCode) ==> r.zip.Some? && r.zip.value <= postalCode.value
    ensures Truthy(postalCode) && '-' in postalCode.value ==>
              var code := postalCode.value;
              var second := Before(After(code, '-'), '-');
              r.zip == Some(Before(code, '-'))
              && r.zipPlus4 == (if second != "" then Some(Before(code, '-') + "-" + second) else Some(code))
    ensures Truthy(postalCode) && '-' !in postalCode.value && |postalCode.value| > 5 ==>
              r.zip == Some(postalCode.value[..5])
              && r.zipPlus4 == Some(postalCode.value[..5] + "-" + postalCode.value[5..])
    ensures Truthy(postalCode) && '-' !in postalCode.value && |postalCode.value| <= 5 ==>
              r.zip == postalCode && r.zipPlus4.None?
  {
    if !Truthy(postalCode) then PostalSplit(None, None)
    else
      var code := postalCode.value;
      if '-' in code then
        var parts := Split(code, '-');
        SplitHead(code, '-');
        SplitHead(After(code, '-'), '-');
        var base := parts[0];
        var plus4 := parts[1];
        PostalSplit(Some(base), if plus4 != "" then Some(base + "-" + plus4) else Some(code))
      else if |code| > 5 then
        var zip := code[..5];
        var plus4 := code[5..];
        PostalSplit(Some(zip), if plus4 != "" then Some(zip + "-" + plus4) else None)
      else
        PostalSplit(Some(code), None)
  }

  /** `standardizeAddress`. */
  function StandardizeAddress(result: ValidationResult): (std: StandardizedAddress)
    ensures std.city == LocalityOf(result) && std.state == AdministrativeAreaOf(result)
    ensures std.street == DeriveStreet(result) && std.number == DeriveNumber(result)
    ensures PostalSplit(std.zip, std.zipPlus4) == SplitPostalCode(PostalCodeOf(result))
    ensures std.zip.Some? ==> std.zip.value <= PostalCodeOf(result).value
  {
    var split := SplitPostalCode(PostalCodeOf(result));
    StandardizedAddress(
      number := DeriveNumber(result),
      street := DeriveStreet(result),
      city := LocalityOf(result),
      state := AdministrativeAreaOf(result),
      zip := split.zip,
      zipPlus4 := split.zipPlus4
    )
  }

  // ---------------------------------------------------------------------------
  // Properties
  // ---------------------------------------------------------------------------

  /** A non-empty `route` component decides the street, whatever the address lines say. */
  lemma StreetFromRoute(result: ValidationResult, i: nat)
    requires ComponentsOf(result).Some? && IsFirstMatch(ComponentsOf(result).value, "route", i)
    requires Truthy(TextOf(ComponentsOf(result).value[i]))
    ensures StandardizeAddress(result).street == TextOf(ComponentsOf(result).value[i])
  {
  }

  /** Without a usable `route` component the street is the first address line,
      verbatim, or absent. */
  lemma StreetFromFirstLine(result: ValidationResult)
    requires ComponentsOf(result).None?
             || forall i :: IsFirstMatch(ComponentsOf(result).value, "route", i)
                           ==> !Truthy(TextOf(ComponentsOf(result).value[i]))
    ensures StandardizeAddress(result).street == FirstAddressLine(result)
  {
  }

  /** Without a usable `street_number` component, a first address line
      `token + " " + rest` yields the whole token as the number exactly when the
      token starts with a digit ("123A Main St" gives "123A", "Main St" nothing). */
  lemma NumberFromLeadingToken(result: ValidationResult, token: string, rest: string)
    requires !Truthy(FindComponent(result, "street_number"))
    requires ' ' !in token
    requires FirstAddressLine(result) == Some(token + " " + rest)
    ensures StartsWithDigit(token) ==> StandardizeAddress(result).number == Some(token)
    ensures !StartsWithDigit(token) ==> StandardizeAddress(result).number == None
  {
    BeforeAfterSeparated(token, rest, ' ');
    assert token + " " + rest == token + [' '] + rest;
    SplitHead(token + " " + rest, ' ');
  }

  /** Without a usable `street_number` component, a first address line with no
      space is the number, whole, exactly when it starts with a digit ("123"
      gives "123", "Main" nothing). */
  lemma NumberFromSpacelessLine(result: ValidationResult, line: string)
    requires !Truthy(FindComponent(result, "street_number"))
    requires ' ' !in line
    requires FirstAddressLine(result) == Some(line)
    ensures StandardizeAddress(result).number == if StartsWithDigit(line) then Some(line) else None
  {
    BeforeAbsent(line, ' ');
    SplitHead(line, ' ');
  }

  /** Whenever ZIP+4 is set, so is zip, and ZIP+4 is zip followed by a hyphen. */
  lemma ZipPlus4ExtendsZip(postalCode: Option<string>)
    ensures var r := SplitPostalCode(postalCode);
            r.zipPlus4.Some? ==> r.zip.Some? && r.zip.value + "-" <= r.zipPlus4.value
  {
    var r := SplitPostalCode(postalCode);
    if r.zipPlus4.Some? && '-' in postalCode.value {
      var code := postalCode.value;
      assert code == Before(code, '-') + "-" + After(code, '-');
    }
  }

  /** Splitting is a normalisation: feeding a produced ZIP+4 back in yields the
      same zip and the same ZIP+4. */
  lemma {:induction false} SplitPostalCodeIdempotent(postalCode: Option<string>)
    requires SplitPostalCode(postalCode).zipPlus4.Some?
    ensures var r := SplitPostalCode(postalCode);
            SplitPostalCode(r.zipPlus4) == r
  {
    var r := SplitPostalCode(postalCode);
    var code := postalCode.value;
    if '-' in code {
      var base := Before(code, '-');
      var second := Before(After(code, '-'), '-');
      if second != "" {
        BeforeAfterSeparated(base, second, '-');
        BeforeAbsent(second, '-');
        assert base + "-" + second == base + ['-'] + second;
      }
    } else {
      var zip := code[..5];
      var rest := code[5..];
      assert '-' !in zip && '-' !in rest by {
        assert code == zip + rest;
      }
      BeforeAfterSeparated(zip, rest, '-');
      BeforeAbsent(rest, '-');
      assert zip + "-" + rest == zip + ['-'] + rest;
    }
  }

  /** Example: the hyphenated ZIP+4 "12345-6789" is kept, with zip "12345". */
  lemma HyphenatedExample()
    ensures SplitPostalCode(Some("12345-6789")) == PostalSplit(Some("12345"), Some("12345-6789"))
  {
    HyphenatedCodeKept("12345", "6789");
    assert "12345" + "-" + "6789" == "12345-6789";
  }

  /** Example: under the other postal-code rules a nine-digit run gets its
      hyphen, a bare five-digit zip has no ZIP+4, and an absent code gives neither. */
  lemma UnhyphenatedExamples()
    ensures SplitPostalCode(Some("123456789")) == PostalSplit(Some("12345"), Some("12345-6789"))
    ensures SplitPostalCode(Some("12345")) == PostalSplit(Some("12345"), None)
    ensures SplitPostalCode(None) == PostalSplit(None, None)
  {
    var nine := "123456789";
    assert '-' !in nine;
    assert nine[..5] == "12345" && nine[5..] == "6789";
    assert "12345" + "-" + "6789" == "12345-6789";
  }

  /** A `base-suffix` code with hyphen-free parts is already normal: zip is the
      base and ZIP+4 the code itself; with an empty suffix ZIP+4 is the code too. */
  lemma HyphenatedCodeKept(base: string, suffix: string)
    requires '-' !in base && '-' !in suffix
    ensures SplitPostalCode(Some(base + "-" + suffix)) == PostalSplit(Some(base), Some(base + "-" + suffix))
  {
    BeforeAfterSeparated(base, suffix, '-');
    BeforeAbsent(suffix, '-');
    assert base + "-" + suffix == base + ['-'] + suffix;
  }

  /** Everything from a second hyphen on is dropped from ZIP+4. */
  lemma SecondHyphenDropped(base: string, suffix: string, tail: string)
    requires '-' !in base && '-' !in suffix && suffix != ""
    ensures SplitPostalCode(Some(base + "-" + suffix + "-" + tail))
            == PostalSplit(Some(base), Some(base + "-" + suffix))
  {
    var code := base + "-" + suffix + "-" + tail;
    assert Before(code, '-') == base && After(code, '-') == suffix + "-" + tail by {
      BeforeAfterSeparated(base, suffix + "-" + tail, '-');
      assert code == base + ['-'] + (suffix + "-" + tail);
    }
    assert Before(suffix + "-" + tail, '-') == suffix by {
      BeforeAfterSeparated(suffix, tail, '-');
      assert suffix + "-" + tail == suffix + ['-'] + tail;
    }
  }
}
