/** The provider's validation result, as far as the service reads it. Every field
    is optional: absence is an ordinary value, never an error. */
module ValidationTypes {
  import opened Wrappers

  /** The provider's own verdict on the submitted address. */
  datatype Verdict = Verdict(
    addressComplete: Option<bool>,
    hasUnconfirmedComponents: Option<bool>
  )

  datatype ComponentName = ComponentName(text: Option<string>)

  /** One structured piece of the address, e.g. of type `"route"` or `"street_number"`. */
  datatype AddressComponent = AddressComponent(
    componentName: Option<ComponentName>,
    componentType: Option<string>
  )

  datatype PostalAddress = PostalAddress(
    regionCode: Option<string>,
    postalCode: Option<string>,
    administrativeArea: Option<string>,
    locality: Option<string>,
    addressLines: Option<seq<string>>
  )

  datatype Address = Address(
    formattedAddress: Option<string>,
    postalAddress: Option<PostalAddress>,
    addressComponents: Option<seq<AddressComponent>>
  )

  /** The USPS delivery-point-validation data the provider returns. */
  datatype UspsData = UspsData(
    dpvConfirmation: Option<string>,
    dpvFootnotes: Option<string>
  )

  datatype ValidationResult = ValidationResult(
    verdict: Option<Verdict>,
    address: Option<Address>,
    uspsData: Option<UspsData>
  )

  // Optional chaining (`result.address?.postalAddress?.…`) into the fields read.

  function PostalOf(result: ValidationResult): Option<PostalAddress> {
    if result.address.Some? then result.address.value.postalAddress else None
  }

  function ComponentsOf(result: ValidationResult): Option<seq<AddressComponent>> {
    if result.address.Some? then result.address.value.addressComponents else None
  }

  function FormattedAddressOf(result: ValidationResult): Option<string> {
    if result.address.Some? then result.address.value.formattedAddress else None
  }

  function RegionCodeOf(result: ValidationResult): Option<string> {
    var p := PostalOf(result);
    if p.Some? then p.value.regionCode else None
  }

  function PostalCodeOf(result: ValidationResult): Option<string> {
    var p := PostalOf(result);
    if p.Some? then p.value.postalCode else None
  }

  function LocalityOf(result: ValidationResult): Option<string> {
    var p := PostalOf(result);
    if p.Some? then p.value.locality else None
  }

  function AdministrativeAreaOf(result: ValidationResult): Option<string> {
    var p := PostalOf(result);
    if p.Some? then p.value.administrativeArea else None
  }

  /** `addressLines?.[0]`: absent when there are no lines or the list is empty. */
  function FirstAddressLine(result: ValidationResult): Option<string> {
    var p := PostalOf(result);
    if p.Some? && p.value.addressLines.Some? && |p.value.addressLines.value| > 0
    then Some(p.value.addressLines.value[0])
    else None
  }

  function DpvConfirmationOf(result: ValidationResult): Option<string> {
    if result.uspsData.Some? then result.uspsData.value.dpvConfirmation else None
  }

  function DpvFootnotesOf(result: ValidationResult): Option<string> {
    if result.uspsData.Some? then result.uspsData.value.dpvFootnotes else None
  }

  function AddressCompleteOf(result: ValidationResult): Option<bool> {
    if result.verdict.Some? then result.verdict.value.addressComplete else None
  }

  function HasUnconfirmedComponentsOf(result: ValidationResult): Option<bool> {
    if result.verdict.Some? then result.verdict.value.hasUnconfirmedComponents else None
  }
}
