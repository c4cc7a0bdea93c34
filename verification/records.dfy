/** The records the viewer parser fills in. Each Python dictionary whose keys
    are only set by some segments becomes a record of `Option` fields (a
    missing key is `None`); dictionaries that are always created whole become
    plain records. */
module Records {
  import opened Wrappers
  import opened Values

  /** The party the last recognised `NM1` named: `current_entity`. */
  datatype Entity =
    | SubmitterParty
    | ReceiverParty
    | BillingParty
    | PayToParty
    | SubscriberParty
    | PayerParty
    | RenderingParty
    | FacilityParty

  /** A postal address: `street` from `N3`, the rest from `N4`. */
  datatype Address = Address(street: Option<string>, city: Option<string>,
                             state: Option<string>, zip: Option<string>)

  /** The empty address `{}` an `NM1` attaches to a provider or subscriber. */
  const NoAddress := Address(None, None, None, None)

  datatype Contact = Contact(name: string, phone: string, extension: string)

  /** `kind` is the transaction set identifier (`type` in the output). */
  datatype Transaction = Transaction(
    kind: Option<string>, controlNumber: Option<string>, version: Option<string>,
    purpose: Option<string>, referenceId: Option<string>,
    date: Option<string>, time: Option<string>)

  datatype Submitter = Submitter(name: Option<string>, id: Option<string>, contact: Option<Contact>)

  datatype Receiver = Receiver(name: Option<string>, id: Option<string>)

  /** A billing, pay-to or service-facility provider. */
  datatype Provider = Provider(name: Option<string>, taxId: Option<string>, address: Option<Address>)

  datatype Subscriber = Subscriber(
    firstName: Option<string>, lastName: Option<string>, id: Option<string>,
    address: Option<Address>, relationship: Option<string>,
    groupNumber: Option<string>, planType: Option<string>,
    dob: Option<string>, sex: Option<string>)

  datatype Payer = Payer(name: string, payerId: string)

  datatype RenderingProvider = RenderingProvider(firstName: string, lastName: string, npi: string)

  /** `benefitsAssigned` is the `assigned` key of the output. */
  datatype Indicators = Indicators(
    benefitsAssigned: string, providerSignature: string, releaseInfo: string,
    patientSignature: string, relatedCause: string)

  datatype Diagnosis = Diagnosis(primary: string, secondary: seq<string>)

  /** A service line's diagnosis pointer: the empty string until an `SV1`
      supplies one, then an integer. */
  datatype DiagnosisPointer = NoPointer | PointerTo(n: int)

  datatype ServiceLine = ServiceLine(
    lineNumber: int, codeQualifier: string, procedureCode: string,
    charge: Amount, unitQualifier: string, units: Amount,
    diagnosisPointer: DiagnosisPointer, emergencyIndicator: string,
    serviceDate: string, placeOfService: Option<string>)

  /** One claim: the `CLM` fields, what later segments add to it, and the
      payer, rendering provider and facility named inside it. */
  datatype Claim = Claim(
    id: string, totalCharge: Amount, placeOfService: string, serviceType: string,
    indicators: Indicators, onsetDate: string, clearinghouseClaimNumber: string,
    diagnosis: Diagnosis, serviceLines: seq<ServiceLine>,
    payer: Option<Payer>, renderingProvider: Option<RenderingProvider>,
    serviceFacility: Option<Provider>)

  /** The line numbers of a list of service lines, in order. */
  function LineNumbers(lines: seq<ServiceLine>): (r: seq<int>)
    ensures |r| == |lines|
    ensures forall i :: 0 <= i < |lines| ==> r[i] == lines[i].lineNumber
  {
    seq(|lines|, i requires 0 <= i < |lines| => lines[i].lineNumber)
  }
}
