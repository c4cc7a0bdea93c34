/** The segment loop of `parse_x12_for_viewer`: a fold of `Step` over the
    segments, where `Step` dispatches on the segment identifier to one
    handler per segment kind. */
module Dispatcher {
  import opened Wrappers
  import opened Text
  import opened Values
  import opened Tokenizer
  import opened Records

  /** Everything the loop accumulates. `buffers` is the `N3`→`N4` address
      buffer, keyed by the party current at the time (possibly none). */
  datatype State = State(
    transaction: Transaction,
    submitter: Submitter,
    receiver: Receiver,
    billing: Provider,
    payTo: Provider,
    subscriber: Subscriber,
    payer: Option<Payer>,
    current: Option<Claim>,
    claims: seq<Claim>,
    buffers: map<Option<Entity>, Address>,
    entity: Option<Entity>)

  /** The state before the first segment: every record empty, no claim and
      no current party. */
  const Initial := State(
    Transaction(None, None, None, None, None, None, None),
    Submitter(None, None, None),
    Receiver(None, None),
    Provider(None, None, None),
    Provider(None, None, None),
    Subscriber(None, None, None, None, None, None, None, None, None),
    None, None, [], map[], None)

  /** Element `i` of a segment, cleaned, or the empty string when absent. */
  function Field(seg: Segment, i: nat): (f: string) {
    CleanValue(El(seg.elements, i, ""))
  }

  /** The closed claims followed by the open one: what the loop hands to
      the assembly once the last open claim has been saved. */
  function AllClaims(st: State): (r: seq<Claim>)
    ensures |r| == |st.claims| + (if st.current.Some? then 1 else 0)
    ensures r[..|st.claims|] == st.claims
    ensures st.current.Some? ==> r[|st.claims|] == st.current.value
  {
    st.claims + (if st.current.Some? then [st.current.value] else [])
  }

  /** What the loop never changes in an open claim except through `CLM`,
      `LX` and `SV1`: its id, place of service and line numbering. */
  ghost predicate Keeps(a: Claim, b: Claim) {
    a.id == b.id && a.placeOfService == b.placeOfService
    && LineNumbers(a.serviceLines) == LineNumbers(b.serviceLines)
  }

  /** The state with its open claim replaced. */
  function WithClaim(st: State, c: Claim): (r: State)
    requires st.current.Some?
  {
    st.(current := Some(c))
  }

  // ---------------------------------------------------------------------------
  // Envelope, header and party segments
  // ---------------------------------------------------------------------------

  /** `ISA`: the sender id names the submitter, the receiver id names and
      identifies the receiver. */
  function OnIsa(st: State, seg: Segment): (r: State)
    ensures r == st.(submitter := r.submitter, receiver := r.receiver)
    ensures r.submitter == st.submitter.(name := Some(Field(seg, 6)))
    ensures r.receiver.name == r.receiver.id == Some(Field(seg, 8))
  {
    st.(submitter := st.submitter.(name := Some(Field(seg, 6))),
        receiver := Receiver(Some(Field(seg, 8)), Some(Field(seg, 8))))
  }

  /** `ST`: transaction set identifier, control number and version. */
  function OnSt(st: State, seg: Segment): (r: State)
    ensures r == st.(transaction := r.transaction)
    ensures r.transaction.(kind := None, controlNumber := None, version := None)
         == st.transaction.(kind := None, controlNumber := None, version := None)
    ensures r.transaction.kind == Some(Field(seg, 1)) && r.transaction.controlNumber == Some(Field(seg, 2))
    ensures r.transaction.version == Some(Field(seg, 3))
  {
    st.(transaction := st.transaction.(kind := Some(Field(seg, 1)),
                                       controlNumber := Some(Field(seg, 2)),
                                       version := Some(Field(seg, 3))))
  }

  /** `BHT`: purpose, reference id, and the creation date and time, both
      reformatted. */
  function OnBht(st: State, seg: Segment): (r: State)
    ensures r == st.(transaction := r.transaction)
    ensures r.transaction.(purpose := None, referenceId := None, date := None, time := None)
         == st.transaction.(purpose := None, referenceId := None, date := None, time := None)
    ensures r.transaction.purpose == Some(Field(seg, 1)) && r.transaction.referenceId == Some(Field(seg, 3))
    ensures r.transaction.date == Some(ParseDate(Field(seg, 4)))
    ensures r.transaction.time == Some(ParseTime(Field(seg, 5)))
  {
    st.(transaction := st.transaction.(purpose := Some(Field(seg, 1)),
                                       referenceId := Some(Field(seg, 3)),
                                       date := Some(ParseDate(Field(seg, 4))),
                                       time := Some(ParseTime(Field(seg, 5)))))
  }

  /** The party an `NM1` entity identifier code names, if the parser knows it. */
  function EntityOf(code: string): (r: Option<Entity>)
    ensures r.Some? <==> code in {"41", "40", "85", "87", "IL", "PR", "82", "77"}
    ensures r == Some(SubmitterParty) <==> code == "41"
    ensures r == Some(ReceiverParty) <==> code == "40"
    ensures r == Some(BillingParty) <==> code == "85"
    ensures r == Some(PayToParty) <==> code == "87"
    ensures r == Some(SubscriberParty) <==> code == "IL"
    ensures r == Some(PayerParty) <==> code == "PR"
    ensures r == Some(RenderingParty) <==> code == "82"
    ensures r == Some(FacilityParty) <==> code == "77"
  {
    if code == "41" then Some(SubmitterParty)
    else if code == "40" then Some(ReceiverParty)
    else if code == "85" then Some(BillingParty)
    else if code == "87" then Some(PayToParty)
    else if code == "IL" then Some(SubscriberParty)
    else if code == "PR" then Some(PayerParty)
    else if code == "82" then Some(RenderingParty)
    else if code == "77" then Some(FacilityParty)
    else None
  }

  /** `NM1`: element 1 picks the party, which becomes current; element 3 is
      the (last) name, 4 the first name and 9 the identifier. Payer,
      rendering provider and facility go into the open claim when there is
      one; a payer outside a claim is the global payer, and the other two are
      dropped. An unknown code changes nothing. */
  function OnNm1(st: State, seg: Segment): (r: State)
    ensures EntityOf(Field(seg, 1)).None? ==> r == st
    ensures EntityOf(Field(seg, 1)).Some? ==> r.entity == EntityOf(Field(seg, 1))
    ensures r.claims == st.claims && r.buffers == st.buffers
    ensures r.current.Some? <==> st.current.Some?
    ensures r.current.Some? ==>
      r.current.value == st.current.value.(payer := r.current.value.payer,
                                           renderingProvider := r.current.value.renderingProvider,
                                           serviceFacility := r.current.value.serviceFacility)
    ensures EntityOf(Field(seg, 1)) == Some(SubmitterParty) ==>
      r == st.(entity := Some(SubmitterParty),
               submitter := st.submitter.(name := Some(Field(seg, 3)), id := Some(Field(seg, 9))))
    ensures EntityOf(Field(seg, 1)) == Some(ReceiverParty) ==>
      r == st.(entity := Some(ReceiverParty), receiver := Receiver(Some(Field(seg, 3)), Some(Field(seg, 9))))
    ensures EntityOf(Field(seg, 1)) == Some(BillingParty) ==>
      r == st.(entity := Some(BillingParty),
               billing := Provider(Some(Field(seg, 3)), Some(Field(seg, 9)), Some(NoAddress)))
    ensures EntityOf(Field(seg, 1)) == Some(PayToParty) ==>
      r == st.(entity := Some(PayToParty),
               payTo := Provider(Some(Field(seg, 3)), Some(Field(seg, 9)), Some(NoAddress)))
    ensures EntityOf(Field(seg, 1)) == Some(SubscriberParty) ==>
      r == st.(entity := Some(SubscriberParty),
               subscriber := st.subscriber.(firstName := Some(Field(seg, 4)), lastName := Some(Field(seg, 3)),
                                            id := Some(Field(seg, 9)), address := Some(NoAddress)))
    ensures EntityOf(Field(seg, 1)) == Some(PayerParty) && st.current.Some? ==>
      r == st.(entity := Some(PayerParty),
               current := Some(st.current.value.(payer := Some(Payer(Field(seg, 3), Field(seg, 9))))))
    ensures EntityOf(Field(seg, 1)) == Some(PayerParty) && st.current.None? ==>
      r == st.(entity := Some(PayerParty), payer := Some(Payer(Field(seg, 3), Field(seg, 9))))
    ensures EntityOf(Field(seg, 1)) == Some(RenderingParty) ==>
      r == st.(entity := Some(RenderingParty),
               current := if st.current.None? then None
                          else Some(st.current.value.(renderingProvider :=
                                      Some(RenderingProvider(Field(seg, 4), Field(seg, 3), Field(seg, 9))))))
    ensures EntityOf(Field(seg, 1)) == Some(FacilityParty) ==>
      r == st.(entity := Some(FacilityParty),
               current := if st.current.None? then None
                          else Some(st.current.value.(serviceFacility :=
                                      Some(Provider(Some(Field(seg, 3)), Some(Field(seg, 9)), Some(NoAddress))))))
  {
    var name := Field(seg, 3);
    var first := Field(seg, 4);
    var id := Field(seg, 9);
    match EntityOf(Field(seg, 1))
    case None => st
    case Some(party) =>
      var st := st.(entity := Some(party));
      match party
      case SubmitterParty => st.(submitter := st.submitter.(name := Some(name), id := Some(id)))
      case ReceiverParty => st.(receiver := Receiver(Some(name), Some(id)))
      case BillingParty => st.(billing := Provider(Some(name), Some(id), Some(NoAddress)))
      case PayToParty => st.(payTo := Provider(Some(name), Some(id), Some(NoAddress)))
      case SubscriberParty =>
        st.(subscriber := st.subscriber.(firstName := Some(first), lastName := Some(name),
                                         id := Some(id), address := Some(NoAddress)))
      case PayerParty =>
        if st.current.Some? then WithClaim(st, st.current.value.(payer := Some(Payer(name, id))))
        else st.(payer := Some(Payer(name, id)))
      case RenderingParty =>
        if st.current.Some? then
          WithClaim(st, st.current.value.(renderingProvider := Some(RenderingProvider(first, name, id))))
        else st
      case FacilityParty =>
        if st.current.Some? then
          WithClaim(st, st.current.value.(serviceFacility := Some(Provider(Some(name), Some(id), Some(NoAddress)))))
        else st
  }

  /** `N3`: a fresh address holding only the street is buffered for the
      current party (or for no party). */
  function OnN3(st: State, seg: Segment): (r: State)
    ensures r == st.(buffers := r.buffers)
    ensures st.entity in r.buffers && r.buffers[st.entity] == NoAddress.(street := Some(Field(seg, 1)))
    ensures forall e :: e in st.buffers && e != st.entity ==> e in r.buffers && r.buffers[e] == st.buffers[e]
    ensures r.buffers.Keys == st.buffers.Keys + {st.entity}
  {
    st.(buffers := st.buffers[st.entity := NoAddress.(street := Some(Field(seg, 1)))])
  }

  /** `N4`: when an address is buffered for the current party, city, state
      and zip complete it and the result becomes the address of the billing
      provider, pay-to provider, subscriber, or the open claim's facility,
      whichever is current. Without a buffered address nothing changes. */
  function OnN4(st: State, seg: Segment): (r: State)
    ensures st.entity !in st.buffers ==> r == st
    ensures st.entity in st.buffers ==>
      var addr := st.buffers[st.entity].(city := Some(Field(seg, 1)), state := Some(Field(seg, 2)),
                                          zip := Some(Field(seg, 3)));
      && r.buffers == st.buffers[st.entity := addr]
      && (st.entity == Some(BillingParty) ==> r.billing == st.billing.(address := Some(addr)))
      && (st.entity == Some(PayToParty) ==> r.payTo == st.payTo.(address := Some(addr)))
      && (st.entity == Some(SubscriberParty) ==> r.subscriber == st.subscriber.(address := Some(addr)))
      && (st.entity == Some(FacilityParty) && st.current.Some? && st.current.value.serviceFacility.Some? ==>
            r.current.Some? && r.current.value.serviceFacility
              == Some(st.current.value.serviceFacility.value.(address := Some(addr))))
    ensures r.claims == st.claims && r.entity == st.entity
    ensures r.current.Some? <==> st.current.Some?
    ensures r.current.Some? ==>
      r.current.value == st.current.value.(serviceFacility := r.current.value.serviceFacility)
    ensures r == st.(buffers := r.buffers, billing := r.billing, payTo := r.payTo,
                     subscriber := r.subscriber, current := r.current)
    ensures st.entity != Some(BillingParty) ==> r.billing == st.billing
    ensures st.entity != Some(PayToParty) ==> r.payTo == st.payTo
    ensures st.entity != Some(SubscriberParty) ==> r.subscriber == st.subscriber
    ensures st.entity != Some(FacilityParty) ==> r.current == st.current
    ensures st.current.None? || st.current.value.serviceFacility.None? ==> r.current == st.current
  {
    if st.entity !in st.buffers then st
    else
      var addr := st.buffers[st.entity].(city := Some(Field(seg, 1)), state := Some(Field(seg, 2)),
                                          zip := Some(Field(seg, 3)));
      var st := st.(buffers := st.buffers[st.entity := addr]);
      match st.entity
      case Some(BillingParty) => st.(billing := st.billing.(address := Some(addr)))
      case Some(PayToParty) => st.(payTo := st.payTo.(address := Some(addr)))
      case Some(SubscriberParty) => st.(subscriber := st.subscriber.(address := Some(addr)))
      case Some(FacilityParty) =>
        if st.current.Some? && st.current.value.serviceFacility.Some? then
          var facility := st.current.value.serviceFacility.value;
          WithClaim(st, st.current.value.(serviceFacility := Some(facility.(address := Some(addr)))))
        else st
      case _ => st
  }

  /** `PER`: contact name, phone and extension, kept only for the submitter. */
  function OnPer(st: State, seg: Segment): (r: State)
    ensures r == st.(submitter := st.submitter.(contact := r.submitter.contact))
    ensures st.entity != Some(SubmitterParty) ==> r == st
    ensures st.entity == Some(SubmitterParty) ==>
      r.submitter.contact == Some(Contact(Field(seg, 2), Field(seg, 4), Field(seg, 6)))
  {
    if st.entity == Some(SubmitterParty) then
      st.(submitter := st.submitter.(contact := Some(Contact(Field(seg, 2), Field(seg, 4), Field(seg, 6)))))
    else st
  }

  /** `SBR`: relationship (`self` when empty), group number and plan type,
      whichever party is current. */
  function OnSbr(st: State, seg: Segment): (r: State)
    ensures r == st.(subscriber := st.subscriber.(relationship := r.subscriber.relationship,
                                                  groupNumber := r.subscriber.groupNumber,
                                                  planType := r.subscriber.planType))
    ensures Field(seg, 2) == "" ==> r.subscriber.relationship == Some("self")
    ensures r.subscriber.relationship.Some? && r.subscriber.relationship.value != ""
    ensures Field(seg, 2) != "" ==> r.subscriber.relationship == Some(Field(seg, 2))
    ensures r.subscriber.groupNumber == Some(Field(seg, 3)) && r.subscriber.planType == Some(Field(seg, 5))
  {
    var relationship := Field(seg, 2);
    st.(subscriber := st.subscriber.(relationship := Some(if relationship == "" then "self" else relationship),
                                     groupNumber := Some(Field(seg, 3)),
                                     planType := Some(Field(seg, 5))))
  }

  /** `DMG`: birth date (reformatted) and sex, kept only for the subscriber. */
  function OnDmg(st: State, seg: Segment): (r: State)
    ensures r == st.(subscriber := st.subscriber.(dob := r.subscriber.dob, sex := r.subscriber.sex))
    ensures st.entity != Some(SubscriberParty) ==> r == st
    ensures st.entity == Some(SubscriberParty) ==> r.subscriber.dob == Some(ParseDate(Field(seg, 2))) && r.subscriber.sex == Some(Field(seg, 3))
  {
    if st.entity == Some(SubscriberParty) then
      st.(subscriber := st.subscriber.(dob := Some(ParseDate(Field(seg, 2))), sex := Some(Field(seg, 3))))
    else st
  }

  // ---------------------------------------------------------------------------
  // Claim segments
  // ---------------------------------------------------------------------------

  /** The claim a `CLM` opens: id, total charge and the four indicators,
      everything else empty. */
  function NewClaim(seg: Segment): (c: Claim)
    ensures c.id == Field(seg, 1) && c.serviceLines == [] && c.placeOfService == ""
    ensures c.diagnosis == Diagnosis("", [])
    ensures c.payer.None? && c.renderingProvider.None? && c.serviceFacility.None?
    ensures c.totalCharge == SafeFloat(El(seg.elements, 2, "")) && c.serviceType == ""
    ensures c.indicators == Indicators(Field(seg, 7), Field(seg, 6), Field(seg, 9), Field(seg, 8), "")
    ensures c.onsetDate == "" && c.clearinghouseClaimNumber == ""
  {
    Claim(Field(seg, 1), SafeFloat(El(seg.elements, 2, "")), "", "",
          Indicators(Field(seg, 7), Field(seg, 6), Field(seg, 9), Field(seg, 8), ""),
          "", "", Diagnosis("", []), [], None, None, None)
  }

  /** `CLM`: the open claim, if any, is closed and a new one opened. */
  function OnClm(st: State, seg: Segment): (r: State)
    ensures AllClaims(r) == AllClaims(st) + [NewClaim(seg)]
    ensures r.current == Some(NewClaim(seg))
    ensures r == st.(current := r.current, claims := r.claims)
  {
    st.(claims := AllClaims(st), current := Some(NewClaim(seg)))
  }

  /** The diagnosis after the `HI` loop has looked at elements `i` onward:
      a non-empty code from element 1 replaces the primary code and later
      ones are appended to the secondary codes. */
  function HiFrom(d: Diagnosis, elements: seq<string>, i: nat): (r: Diagnosis)
    requires i >= 1
    ensures i >= 2 ==> r.primary == d.primary
    ensures |d.secondary| <= |r.secondary| && r.secondary[..|d.secondary|] == d.secondary
    decreases |elements| - i
  {
    if i >= |elements| then d else HiFrom(HiElement(d, elements, i), elements, i + 1)
  }

  /** One iteration of the `HI` loop, on element `e` at index `i`. */
  function HiElement(d: Diagnosis, elements: seq<string>, i: nat): (r: Diagnosis)
    requires 1 <= i < |elements|
    ensures i >= 2 && CleanCode(elements[i]) != "" ==> r == d.(secondary := d.secondary + [CleanCode(elements[i])])
    ensures CleanCode(elements[i]) == "" ==> r == d
  {
    var e := elements[i];
    EmptyCode(e);
    if e != "" && CleanCode(e) != "" then
      (if i == 1 then d.(primary := CleanCode(e)) else d.(secondary := d.secondary + [CleanCode(e)]))
    else d
  }

  /** The non-empty cleaned codes of a list of elements, in order. */
  function Codes(elements: seq<string>): (r: seq<string>)
    ensures |r| <= |elements|
  {
    if elements == [] then []
    else
      var code := CleanCode(elements[0]);
      (if code != "" then [code] else []) + Codes(elements[1..])
  }

  /** Every code in the list is non-empty and free of qualifier prefixes. */
  lemma {:induction false} CodesClean(elements: seq<string>)
    ensures forall k :: 0 <= k < |Codes(elements)| ==> Codes(elements)[k] != "" && ':' !in Codes(elements)[k]
  {
    if elements != [] {
      CleanCodeLastComponent(elements[0]);
      CodesClean(elements[1..]);
    }
  }

  /** The diagnosis `HI` leaves: primary from element 1 when it has a code,
      secondary extended by the codes of elements 2 onward. */
  lemma HiDiagnosis(d: Diagnosis, elements: seq<string>)
    ensures var r := HiFrom(d, elements, 1);
      && r.primary == (if |elements| > 1 && CleanCode(elements[1]) != "" then CleanCode(elements[1]) else d.primary)
      && r.secondary == d.secondary + Codes(if |elements| > 2 then elements[2..] else [])
  {
    if |elements| > 1 {
      EmptyCode(elements[1]);
      HiSecondary(HiElement(d, elements, 1), elements, 2);
    }
  }

  /** An empty element has no code. */
  lemma EmptyCode(e: string)
    ensures CleanCode(e) != "" ==> e != ""
  {
    if e == "" {
      assert CleanValue(e) == "";
    }
  }

  /** From element `i` on, the loop only appends codes to the secondary
      list. */
  lemma {:induction false} HiSecondary(d: Diagnosis, elements: seq<string>, i: nat)
    requires 2 <= i <= |elements|
    ensures HiFrom(d, elements, i) == d.(secondary := d.secondary + Codes(elements[i..]))
    decreases |elements| - i
  {
    if i == |elements| {
      assert elements[i..] == [];
    } else {
      var code := CleanCode(elements[i]);
      var head := if code != "" then [code] else [];
      var d1 := HiElement(d, elements, i);
      assert d1 == d.(secondary := d.secondary + head) by {
        if code == "" {
          assert d.secondary + head == d.secondary;
        }
      }
      HiSecondary(d1, elements, i + 1);
      CodesStep(elements, i);
      AppendAssoc(d.secondary, head, Codes(elements[i + 1..]));
    }
  }

  lemma AppendAssoc(a: seq<string>, b: seq<string>, c: seq<string>)
    ensures (a + b) + c == a + (b + c)
  {
  }

  lemma CodesStep(elements: seq<string>, i: nat)
    requires i < |elements|
    ensures Codes(elements[i..])
         == (if CleanCode(elements[i]) != "" then [CleanCode(elements[i])] else []) + Codes(elements[i + 1..])
  {
    assert elements[i..][0] == elements[i] && elements[i..][1..] == elements[i + 1..];
  }

  /** `HI` inside an open claim: see `HiDiagnosis`. */
  function OnHi(st: State, seg: Segment): (r: State)
    requires st.current.Some?
    ensures r.current.Some?
    ensures r == WithClaim(st, st.current.value.(diagnosis := r.current.value.diagnosis))
  {
    WithClaim(st, st.current.value.(diagnosis := HiFrom(st.current.value.diagnosis, seg.elements, 1)))
  }

  /** `DTP`: qualifier 472 dates the last service line, 431 and 454 set the
      onset date of the open claim; anything else changes nothing. */
  function OnDtp(st: State, seg: Segment): (r: State)
    ensures r == st.(current := r.current)
    ensures r.current.Some? == st.current.Some?
    ensures r.current.Some? ==> Keeps(st.current.value, r.current.value)
    ensures Field(seg, 1) !in {"472", "431", "454"} ==> r == st
    ensures Field(seg, 1) == "472" && st.current.Some? && st.current.value.serviceLines != [] ==>
      var lines := r.current.value.serviceLines;
      lines[|lines| - 1].serviceDate == ParseDate(Field(seg, 3))
    ensures Field(seg, 1) in {"431", "454"} && st.current.Some? ==>
      r == WithClaim(st, st.current.value.(onsetDate := ParseDate(Field(seg, 3))))
    ensures Field(seg, 1) == "472" && st.current.Some? && st.current.value.serviceLines != [] ==>
      var lines := st.current.value.serviceLines; var last := |lines| - 1;
      r == WithClaim(st, st.current.value.(serviceLines := lines[last := lines[last].(serviceDate := ParseDate(Field(seg, 3)))]))
    ensures st.current.None? ==> r == st
    ensures Field(seg, 1) == "472" && st.current.Some? && st.current.value.serviceLines == [] ==> r == st
  {
    var qualifier := Field(seg, 1);
    var date := ParseDate(Field(seg, 3));
    if qualifier == "472" && st.current.Some? && st.current.value.serviceLines != [] then
      var lines := st.current.value.serviceLines;
      var last := |lines| - 1;
      WithClaim(st, st.current.value.(serviceLines := lines[last := lines[last].(serviceDate := date)]))
    else if qualifier in {"431", "454"} && st.current.Some? then
      WithClaim(st, st.current.value.(onsetDate := date))
    else st
  }

  /** `REF` inside an open claim: qualifier D9 sets the clearinghouse claim
      number. */
  function OnRef(st: State, seg: Segment): (r: State)
    requires st.current.Some?
    ensures Field(seg, 1) != "D9" ==> r == st
    ensures Field(seg, 1) == "D9" ==>
      r == WithClaim(st, st.current.value.(clearinghouseClaimNumber := Field(seg, 2)))
  {
    if Field(seg, 1) == "D9" then
      WithClaim(st, st.current.value.(clearinghouseClaimNumber := Field(seg, 2)))
    else st
  }

  /** The service line an `LX` opens: its number, everything else empty. */
  function NewLine(seg: Segment): (l: ServiceLine)
    ensures l.lineNumber == SafeInt(El(seg.elements, 1, ""), 0)
    ensures l.placeOfService.None? && l.diagnosisPointer == NoPointer
    ensures l.codeQualifier == "" && l.procedureCode == "" && l.unitQualifier == ""
    ensures l.charge == IntZero && l.units == IntZero
    ensures l.emergencyIndicator == "" && l.serviceDate == ""
  {
    ServiceLine(SafeInt(El(seg.elements, 1, ""), 0), "", "", IntZero, "", IntZero, NoPointer, "", "", None)
  }

  /** `LX` inside an open claim: a new service line is appended. */
  function OnLx(st: State, seg: Segment): (r: State)
    requires st.current.Some?
    ensures r == WithClaim(st, st.current.value.(serviceLines := st.current.value.serviceLines + [NewLine(seg)]))
  {
    WithClaim(st, st.current.value.(serviceLines := st.current.value.serviceLines + [NewLine(seg)]))
  }

  /** `SV1` applied to one service line: composite procedure (qualifier and
      the second `:` component, or the whole code), charge, unit qualifier,
      units, place of service when given, and diagnosis pointer when the raw
      element 7 is not empty. */
  function Sv1Line(svc: ServiceLine, seg: Segment): (r: ServiceLine)
    ensures r.lineNumber == svc.lineNumber && r.serviceDate == svc.serviceDate
    ensures ':' !in Field(seg, 1) ==> r.procedureCode == Field(seg, 1) && r.codeQualifier == svc.codeQualifier
    ensures ':' in Field(seg, 1) ==> ':' !in r.codeQualifier && ':' !in r.procedureCode
    ensures ':' in Field(seg, 1) ==>
      && r.codeQualifier == Split(Field(seg, 1), ':')[0]
      && r.procedureCode == Split(Field(seg, 1), ':')[1]
    ensures r.charge == SafeFloat(El(seg.elements, 2, "")) && r.unitQualifier == Field(seg, 3)
    ensures r.units == SafeFloat(El(seg.elements, 4, ""))
    ensures r.emergencyIndicator == svc.emergencyIndicator
    ensures r.placeOfService == if Field(seg, 5) != "" then Some(Field(seg, 5)) else svc.placeOfService
    ensures r.diagnosisPointer
         == if El(seg.elements, 7, "") != "" then PointerTo(SafeInt(El(seg.elements, 7, ""), 0)) else svc.diagnosisPointer
  {
    var proc := Field(seg, 1);
    var svc :=
      if ':' in proc then
        var parts := Split(proc, ':');
        svc.(codeQualifier := parts[0], procedureCode := parts[1])
      else svc.(procedureCode := proc);
    var svc := svc.(charge := SafeFloat(El(seg.elements, 2, "")),
                    unitQualifier := Field(seg, 3),
                    units := SafeFloat(El(seg.elements, 4, "")));
    var pos := Field(seg, 5);
    var svc := if pos != "" then svc.(placeOfService := Some(pos)) else svc;
    var diag := El(seg.elements, 7, "");
    if diag != "" then svc.(diagnosisPointer := PointerTo(SafeInt(diag, 0))) else svc
  }

  /** `SV1` when the open claim has a service line: the last line is
      updated, and a non-empty place of service becomes the claim's when it
      has none yet. */
  function OnSv1(st: State, seg: Segment): (r: State)
    requires st.current.Some? && st.current.value.serviceLines != []
    ensures r.current.Some?
    ensures var c := st.current.value; var n := |c.serviceLines|;
      r == WithClaim(st, c.(serviceLines := c.serviceLines[n - 1 := Sv1Line(c.serviceLines[n - 1], seg)],
                            placeOfService := r.current.value.placeOfService))
    ensures r.current.value.placeOfService
         == if st.current.value.placeOfService == "" then Field(seg, 5) else st.current.value.placeOfService
  {
    var c := st.current.value;
    var n := |c.serviceLines|;
    var pos := Field(seg, 5);
    var c := c.(serviceLines := c.serviceLines[n - 1 := Sv1Line(c.serviceLines[n - 1], seg)]);
    var c := if pos != "" && c.placeOfService == "" then c.(placeOfService := pos) else c;
    WithClaim(st, c)
  }

  // ---------------------------------------------------------------------------
  // The loop
  // ---------------------------------------------------------------------------

  /** The segment identifiers the loop acts on. */
  datatype Kind = Isa | St | Bht | Nm1 | N3 | N4 | Per | Sbr | Dmg | Clm | Hi | Dtp | Ref | Lx | Sv1 | Other

  /** The identifiers `Step` does not skip outright. */
  const HandledIds: set<string> :=
    {"ISA", "ST", "BHT", "NM1", "N3", "N4", "PER", "SBR", "DMG", "CLM", "HI", "DTP", "REF", "LX", "SV1"}

  function KindOf(id: string): (k: Kind)
    ensures k == Isa <==> id == "ISA"
    ensures k == St <==> id == "ST"
    ensures k == Bht <==> id == "BHT"
    ensures k == Nm1 <==> id == "NM1"
    ensures k == N3 <==> id == "N3"
    ensures k == N4 <==> id == "N4"
    ensures k == Per <==> id == "PER"
    ensures k == Sbr <==> id == "SBR"
    ensures k == Dmg <==> id == "DMG"
    ensures k == Clm <==> id == "CLM"
    ensures k == Hi <==> id == "HI"
    ensures k == Dtp <==> id == "DTP"
    ensures k == Ref <==> id == "REF"
    ensures k == Lx <==> id == "LX"
    ensures k == Sv1 <==> id == "SV1"
    ensures k == Other <==> id !in HandledIds
  {
    if id == "ISA" then Isa
    else if id == "ST" then St
    else if id == "BHT" then Bht
    else if id == "NM1" then Nm1
    else if id == "N3" then N3
    else if id == "N4" then N4
    else if id == "PER" then Per
    else if id == "SBR" then Sbr
    else if id == "DMG" then Dmg
    else if id == "CLM" then Clm
    else if id == "HI" then Hi
    else if id == "DTP" then Dtp
    else if id == "REF" then Ref
    else if id == "LX" then Lx
    else if id == "SV1" then Sv1
    else Other
  }

  /** One iteration of the segment loop. `HI`, `REF`, `LX` need an open
      claim and `SV1` an open claim with a service line; without one, and for
      every other identifier, the segment is skipped. */
  function Step(st: State, seg: Segment): (r: State)
    ensures seg.id !in HandledIds ==> r == st
    ensures seg.id != "CLM" ==> r.claims == st.claims && (r.current.Some? <==> st.current.Some?)
    ensures seg.id == "CLM" ==> AllClaims(r) == AllClaims(st) + [NewClaim(seg)]
  {
    match KindOf(seg.id)
    case Isa => OnIsa(st, seg)
    case St => OnSt(st, seg)
    case Bht => OnBht(st, seg)
    case Nm1 => OnNm1(st, seg)
    case N3 => OnN3(st, seg)
    case N4 => OnN4(st, seg)
    case Per => OnPer(st, seg)
    case Sbr => OnSbr(st, seg)
    case Dmg => OnDmg(st, seg)
    case Clm => OnClm(st, seg)
    case Hi => if st.current.Some? then OnHi(st, seg) else st
    case Dtp => OnDtp(st, seg)
    case Ref => if st.current.Some? then OnRef(st, seg) else st
    case Lx => if st.current.Some? then OnLx(st, seg) else st
    case Sv1 => if st.current.Some? && st.current.value.serviceLines != [] then OnSv1(st, seg) else st
    case Other => st
  }

  /** One more segment is one more step. */
  lemma RunPrefix(st: State, segs: seq<Segment>, i: nat)
    requires i < |segs|
    ensures Run(st, segs[..i + 1]) == Step(Run(st, segs[..i]), segs[i])
  {
    assert segs[..i + 1][..i] == segs[..i];
  }

  /** The state after the loop has consumed `segs`, starting from `st`. */
  function Run(st: State, segs: seq<Segment>): (r: State)
    ensures |AllClaims(r)| == |AllClaims(st)| + ClmCount(segs)
    ensures (forall i :: 0 <= i < |segs| ==> segs[i].id !in HandledIds) ==> r == st
  {
    if segs == [] then st else Step(Run(st, segs[..|segs| - 1]), segs[|segs| - 1])
  }

  /** The number of a service line an `LX` opens. */
  function LineNumberOf(seg: Segment): (n: int) {
    SafeInt(El(seg.elements, 1, ""), 0)
  }

  // ---------------------------------------------------------------------------
  // What one step does to the claims
  // ---------------------------------------------------------------------------

  /** Only `CLM` closes or opens a claim; otherwise the closed claims stay as
      they are, and the open claim keeps its id, gains a line exactly on `LX`,
      and takes its place of service from the first `SV1` that brings one
      while it has a service line. */
  ghost predicate ClaimsEffect(st: State, r: State, seg: Segment) {
    && (seg.id == "CLM" ==> r.claims == AllClaims(st) && r.current == Some(NewClaim(seg)))
    && (seg.id != "CLM" ==> r.claims == st.claims && r.current.Some? == st.current.Some?)
    && (seg.id != "CLM" && st.current.Some? ==>
          var c := st.current.value; var c' := r.current.value;
          && c'.id == c.id
          && LineNumbers(c'.serviceLines)
             == LineNumbers(c.serviceLines) + (if seg.id == "LX" then [LineNumberOf(seg)] else [])
          && c'.placeOfService
             == if seg.id == "SV1" && c.serviceLines != [] && c.placeOfService == "" then Field(seg, 5)
                else c.placeOfService)
  }

  lemma StepClaims(st: State, seg: Segment)
    ensures ClaimsEffect(st, Step(st, seg), seg)
  {
    var k := KindOf(seg.id);
    if k == Clm {
      assert Step(st, seg) == OnClm(st, seg);
    } else if k == Lx {
      LxClaims(st, seg);
    } else if k == Sv1 {
      Sv1Claims(st, seg);
    } else {
      OtherClaims(st, seg);
    }
  }

  lemma LxClaims(st: State, seg: Segment)
    requires KindOf(seg.id) == Lx
    ensures ClaimsEffect(st, Step(st, seg), seg)
  {
    if st.current.Some? {
      var lines := st.current.value.serviceLines;
      assert LineNumbers(lines + [NewLine(seg)]) == LineNumbers(lines) + [LineNumberOf(seg)];
    }
  }

  lemma Sv1Claims(st: State, seg: Segment)
    requires KindOf(seg.id) == Sv1
    ensures ClaimsEffect(st, Step(st, seg), seg)
  {
    if st.current.Some? && st.current.value.serviceLines != [] {
      var lines := st.current.value.serviceLines;
      var n := |lines|;
      LineNumbersUpdate(lines, n - 1, Sv1Line(lines[n - 1], seg));
    }
  }

  /** Every other segment keeps the claims' shape. */
  lemma OtherClaims(st: State, seg: Segment)
    requires KindOf(seg.id) !in {Clm, Lx, Sv1}
    ensures var r := Step(st, seg);
      r.claims == st.claims && r.current.Some? == st.current.Some?
      && (st.current.Some? ==> Keeps(st.current.value, r.current.value))
  {
  }

  /** Replacing a line by one with the same number keeps the numbering. */
  lemma LineNumbersUpdate(lines: seq<ServiceLine>, k: nat, l: ServiceLine)
    requires k < |lines| && l.lineNumber == lines[k].lineNumber
    ensures LineNumbers(lines[k := l]) == LineNumbers(lines)
  {
    assert forall i :: 0 <= i < |lines| ==> lines[k := l][i].lineNumber == lines[i].lineNumber;
  }

  // ---------------------------------------------------------------------------
  // Claims against the segment list
  // ---------------------------------------------------------------------------

  /** The segments of each claim: every `CLM` together with the segments up
      to the next `CLM`; segments before the first `CLM` belong to none. */
  function ClaimGroups(segs: seq<Segment>): (r: seq<seq<Segment>>)
    ensures forall k :: 0 <= k < |r| ==> |r[k]| > 0 && r[k][0].id == "CLM"
  {
    if segs == [] then []
    else
      var g := ClaimGroups(segs[..|segs| - 1]);
      var s := segs[|segs| - 1];
      if s.id == "CLM" then g + [[s]]
      else if g == [] then []
      else g[..|g| - 1] + [g[|g| - 1] + [s]]
  }

  /** The line numbers the `LX` segments of a list carry, in order. */
  function LxNumbers(segs: seq<Segment>): (r: seq<int>) {
    if segs == [] then []
    else
      var s := segs[|segs| - 1];
      LxNumbers(segs[..|segs| - 1]) + (if s.id == "LX" then [LineNumberOf(s)] else [])
  }

  /** Some segment of the list is an `LX`. */
  predicate HasLx(segs: seq<Segment>) {
    segs != [] && (segs[|segs| - 1].id == "LX" || HasLx(segs[..|segs| - 1]))
  }

  /** The place of service of the first `SV1` of a claim's segments that
      follows an `LX` and carries a non-empty one, or empty if none does. */
  function FirstPlaceOfService(segs: seq<Segment>): (p: string) {
    if segs == [] then ""
    else
      var init := segs[..|segs| - 1];
      var s := segs[|segs| - 1];
      var p := FirstPlaceOfService(init);
      if p == "" && s.id == "SV1" && HasLx(init) then Field(s, 5) else p
  }

  /** A claim as its segments determine it: id from its `CLM`, one line per
      `LX` numbered as the `LX` says, and place of service from the first
      `SV1` that brings one. */
  ghost predicate Describes(c: Claim, group: seq<Segment>) {
    && |group| > 0
    && c.id == Field(group[0], 1)
    && LineNumbers(c.serviceLines) == LxNumbers(group)
    && c.placeOfService == FirstPlaceOfService(group)
  }

  ghost predicate Matches(st: State, segs: seq<Segment>) {
    var g := ClaimGroups(segs);
    var all := AllClaims(st);
    && (st.current.None? ==> st.claims == [])
    && |all| == |g|
    && forall k :: 0 <= k < |g| ==> Describes(all[k], g[k])
  }

  /** The claims the loop builds are, one for one and in order, the claims
      the segment list holds: each carries the id of its `CLM`, exactly one
      service line per `LX` between that `CLM` and the next, and the first
      non-empty `SV1` place of service in that range. */
  lemma {:induction false} ClaimsFromSegments(segs: seq<Segment>)
    ensures Matches(Run(Initial, segs), segs)
  {
    if segs != [] {
      var init := segs[..|segs| - 1];
      var s := segs[|segs| - 1];
      ClaimsFromSegments(init);
      var st := Run(Initial, init);
      var r := Step(st, s);
      assert Run(Initial, segs) == r;
      LastSplit(segs);
      StepClaims(st, s);
      if s.id == "CLM" {
        ClmMatches(st, r, init, s);
      } else {
        OtherMatches(st, r, init, s);
      }
    }
  }

  lemma LastSplit<T>(xs: seq<T>)
    requires |xs| > 0
    ensures xs == xs[..|xs| - 1] + [xs[|xs| - 1]]
  {
  }

  lemma ClmMatches(st: State, r: State, init: seq<Segment>, s: Segment)
    requires Matches(st, init) && ClaimsEffect(st, r, s) && s.id == "CLM"
    ensures Matches(r, init + [s])
  {
    var segs := init + [s];
    assert segs[..|segs| - 1] == init;
    var g := ClaimGroups(init);
    assert ClaimGroups(segs) == g + [[s]];
    ClmGroupStart(s);
    assert LineNumbers(NewClaim(s).serviceLines) == [];
    assert Describes(NewClaim(s), [s]);
    var all := AllClaims(r);
    forall k | 0 <= k < |g| + 1
      ensures Describes(all[k], (g + [[s]])[k])
    {
      if k < |g| {
        assert all[k] == AllClaims(st)[k];
      }
    }
  }

  /** A group holding only its `CLM` has no line and no place of service. */
  lemma ClmGroupStart(s: Segment)
    requires s.id == "CLM"
    ensures LxNumbers([s]) == [] && FirstPlaceOfService([s]) == ""
  {
    var g := [s];
    assert g[..|g| - 1] == [] && g[|g| - 1] == s;
    assert LxNumbers(g) == LxNumbers([]) + [];
    assert FirstPlaceOfService(g) == FirstPlaceOfService([]);
  }

  lemma OtherMatches(st: State, r: State, init: seq<Segment>, s: Segment)
    requires Matches(st, init) && ClaimsEffect(st, r, s) && s.id != "CLM"
    ensures Matches(r, init + [s])
  {
    var segs := init + [s];
    assert segs[..|segs| - 1] == init;
    var g := ClaimGroups(init);
    if g == [] {
      assert ClaimGroups(segs) == [];
    } else {
      var n := |g|;
      var g' := g[..n - 1] + [g[n - 1] + [s]];
      assert ClaimGroups(segs) == g';
      assert st.current.Some?;
      OpenClaimMatches(st.current.value, r.current.value, g[n - 1], s);
      ClosedClaimsMatch(st, r, g, g');
    }
  }

  /** The open claim follows its group as the group grows by a segment. */
  lemma OpenClaimMatches(c: Claim, c': Claim, grp: seq<Segment>, s: Segment)
    requires Describes(c, grp) && s.id != "CLM"
    requires c'.id == c.id
    requires LineNumbers(c'.serviceLines)
          == LineNumbers(c.serviceLines) + (if s.id == "LX" then [LineNumberOf(s)] else [])
    requires c'.placeOfService
          == if s.id == "SV1" && c.serviceLines != [] && c.placeOfService == "" then Field(s, 5)
             else c.placeOfService
    ensures Describes(c', grp + [s])
  {
    GroupExtend(grp, s);
    LxNumbersEmpty(grp);
    assert (grp + [s])[0] == grp[0];
  }

  lemma ClosedClaimsMatch(st: State, r: State, g: seq<seq<Segment>>, g': seq<seq<Segment>>)
    requires st.current.Some? && r.current.Some? && r.claims == st.claims
    requires |AllClaims(st)| == |g| == |g'| && g'[..|g| - 1] == g[..|g| - 1]
    requires forall k :: 0 <= k < |g| ==> Describes(AllClaims(st)[k], g[k])
    requires Describes(r.current.value, g'[|g| - 1])
    ensures forall k :: 0 <= k < |g'| ==> Describes(AllClaims(r)[k], g'[k])
  {
    var n := |g|;
    forall k | 0 <= k < n
      ensures Describes(AllClaims(r)[k], g'[k])
    {
      if k < n - 1 {
        assert AllClaims(r)[k] == r.claims[k] == st.claims[k] == AllClaims(st)[k];
        assert g'[k] == g'[..n - 1][k] == g[k];
      }
    }
  }

  lemma GroupExtend(grp: seq<Segment>, s: Segment)
    ensures (grp + [s])[..|grp|] == grp
    ensures LxNumbers(grp + [s]) == LxNumbers(grp) + (if s.id == "LX" then [LineNumberOf(s)] else [])
    ensures FirstPlaceOfService(grp + [s])
         == if FirstPlaceOfService(grp) == "" && s.id == "SV1" && HasLx(grp) then Field(s, 5)
            else FirstPlaceOfService(grp)
  {
    assert (grp + [s])[..|grp|] == grp;
  }

  /** The number of `CLM` segments in a list. */
  function ClmCount(segs: seq<Segment>): (n: nat) {
    if segs == [] then 0
    else ClmCount(segs[..|segs| - 1]) + (if segs[|segs| - 1].id == "CLM" then 1 else 0)
  }

  lemma {:induction false} GroupCount(segs: seq<Segment>)
    ensures |ClaimGroups(segs)| == ClmCount(segs)
  {
    if segs != [] {
      GroupCount(segs[..|segs| - 1]);
    }
  }

  /** As many claims come out of the loop as there are `CLM` segments. */
  lemma ClaimCount(segs: seq<Segment>)
    ensures |AllClaims(Run(Initial, segs))| == ClmCount(segs)
  {
    ClaimsFromSegments(segs);
    GroupCount(segs);
  }

  /** A closed claim is never changed again. */
  lemma {:induction false} ClosedClaimsFrozen(st: State, segs: seq<Segment>)
    ensures var r := Run(st, segs);
      |st.claims| <= |r.claims| && r.claims[..|st.claims|] == st.claims
  {
    if segs != [] {
      var init := segs[..|segs| - 1];
      var s := segs[|segs| - 1];
      ClosedClaimsFrozen(st, init);
      var mid := Run(st, init);
      StepClaims(mid, s);
      assert Run(st, segs) == Step(mid, s);
    }
  }

  /** Position `j` of a claim's segments is an `SV1` with a non-empty place
      of service that follows some `LX`. */
  ghost predicate PlaceAt(g: seq<Segment>, j: int) {
    0 <= j < |g| && g[j].id == "SV1" && Field(g[j], 5) != "" && HasLx(g[..j])
  }

  lemma {:induction false} LxNumbersEmpty(g: seq<Segment>)
    ensures LxNumbers(g) == [] <==> !HasLx(g)
  {
    if g != [] {
      LxNumbersEmpty(g[..|g| - 1]);
    }
  }

  /** `FirstPlaceOfService` is empty exactly when no `SV1` qualifies. */
  lemma {:induction false} NoPlace(g: seq<Segment>)
    ensures FirstPlaceOfService(g) == "" <==> forall j :: 0 <= j < |g| ==> !PlaceAt(g, j)
  {
    if g != [] {
      var init := g[..|g| - 1];
      NoPlace(init);
      PlaceAtPrefix(g);
      PlaceAtLast(g);
    }
  }

  /** Otherwise it is the place of service of the first qualifying `SV1`. */
  lemma {:induction false} FirstPlace(g: seq<Segment>)
    ensures FirstPlaceOfService(g) != "" ==> FirstPlaceAt(g, FirstPlaceOfService(g))
  {
    if g != [] {
      var init := g[..|g| - 1];
      FirstPlace(init);
      if FirstPlaceOfService(init) != "" {
        EarlierPlace(g, FirstPlaceOfService(init));
      } else if FirstPlaceOfService(g) != "" {
        LastPlace(g);
        FirstPlaceWitness(g, |g| - 1);
      }
    }
  }

  /** When the list without its last segment has no place of service but
      the whole list has one, the last segment is the first that qualifies. */
  lemma LastPlace(g: seq<Segment>)
    requires g != [] && FirstPlaceOfService(g[..|g| - 1]) == "" && FirstPlaceOfService(g) != ""
    ensures FirstPlaceOfService(g) == Field(g[|g| - 1], 5)
    ensures PlaceAt(g, |g| - 1)
    ensures forall j' :: 0 <= j' < |g| - 1 ==> !PlaceAt(g, j')
  {
    NoPlace(g[..|g| - 1]);
    PlaceAtPrefix(g);
    PlaceAtLast(g);
  }

  lemma FirstPlaceWitness(g: seq<Segment>, j: int)
    requires PlaceAt(g, j) && forall j' :: 0 <= j' < j ==> !PlaceAt(g, j')
    ensures FirstPlaceAt(g, Field(g[j], 5))
  {
  }

  /** Some position qualifies, carries place of service `p`, and none
      before it qualifies. */
  ghost predicate FirstPlaceAt(g: seq<Segment>, p: string) {
    exists j :: PlaceAt(g, j) && p == Field(g[j], 5) && forall j' :: 0 <= j' < j ==> !PlaceAt(g, j')
  }

  lemma EarlierPlace(g: seq<Segment>, p: string)
    requires g != [] && FirstPlaceAt(g[..|g| - 1], p)
    ensures FirstPlaceAt(g, p)
  {
    var init := g[..|g| - 1];
    PlaceAtPrefix(g);
    var j :| PlaceAt(init, j) && p == Field(init[j], 5) && forall j' :: 0 <= j' < j ==> !PlaceAt(init, j');
    assert g[j] == init[j];
    assert PlaceAt(g, j);
  }

  /** Positions before the last are judged the same in a list and in the
      list without its last segment. */
  lemma PlaceAtPrefix(g: seq<Segment>)
    requires g != []
    ensures var init := g[..|g| - 1];
      forall j :: 0 <= j < |init| ==> (PlaceAt(g, j) <==> PlaceAt(init, j))
  {
    var init := g[..|g| - 1];
    forall j | 0 <= j < |init|
      ensures PlaceAt(g, j) <==> PlaceAt(init, j)
    {
      assert g[..j] == init[..j];
      assert g[j] == init[j];
    }
  }

  /** The last position qualifies when it is an `SV1` with a place of
      service and an `LX` comes before it. */
  lemma PlaceAtLast(g: seq<Segment>)
    requires g != []
    ensures var init := g[..|g| - 1];
      PlaceAt(g, |init|) <==> g[|init|].id == "SV1" && Field(g[|init|], 5) != "" && HasLx(init)
  {
  }

  // ---------------------------------------------------------------------------
  // Single segments
  // ---------------------------------------------------------------------------

  /** A segment the loop does not know changes nothing. */
  lemma UnknownSegment(st: State, seg: Segment)
    requires seg.id !in HandledIds
    ensures Step(st, seg) == st
  {
  }

  /** `HI` without an open claim changes nothing; inside one, a code in
      element 1 becomes the primary diagnosis and the codes of elements 2
      onward are appended to the secondary ones, in element order, and
      nothing else changes. */
  lemma HiStep(st: State, seg: Segment)
    requires seg.id == "HI"
    ensures st.current.None? ==> Step(st, seg) == st
    ensures st.current.Some? ==>
      var d := st.current.value.diagnosis; var e := seg.elements;
      Step(st, seg) == WithClaim(st, st.current.value.(diagnosis := Diagnosis(
        if |e| > 1 && CleanCode(e[1]) != "" then CleanCode(e[1]) else d.primary,
        d.secondary + Codes(if |e| > 2 then e[2..] else []))))
  {
    if st.current.Some? {
      HiDiagnosis(st.current.value.diagnosis, seg.elements);
    }
  }

  /** `SV1` never adds a service line: without an open claim or a line it
      changes nothing, otherwise it rewrites only the last line (keeping its
      number and date) and possibly the claim's empty place of service. */
  lemma Sv1Step(st: State, seg: Segment)
    requires seg.id == "SV1"
    ensures st.current.None? || st.current.value.serviceLines == [] ==> Step(st, seg) == st
    ensures st.current.Some? && st.current.value.serviceLines != [] ==>
      var c := st.current.value; var r := Step(st, seg);
      var lines := c.serviceLines; var n := |lines|;
      && r.current.Some?
      && r == WithClaim(st, c.(serviceLines := r.current.value.serviceLines,
                               placeOfService := r.current.value.placeOfService))
      && |r.current.value.serviceLines| == n
      && r.current.value.serviceLines[..n - 1] == lines[..n - 1]
      && r.current.value.serviceLines[n - 1].lineNumber == lines[n - 1].lineNumber
      && r.current.value.serviceLines[n - 1].serviceDate == lines[n - 1].serviceDate
  {
  }

  /** `DTP*472` never adds a service line: it dates the last one when
      there is one and otherwise changes nothing. */
  lemma DtpServiceDate(st: State, seg: Segment)
    requires seg.id == "DTP" && Field(seg, 1) == "472"
    ensures st.current.None? || st.current.value.serviceLines == [] ==> Step(st, seg) == st
    ensures st.current.Some? && st.current.value.serviceLines != [] ==>
      var c := st.current.value; var r := Step(st, seg);
      var lines := c.serviceLines; var n := |lines|;
      r == WithClaim(st, c.(serviceLines := lines[n - 1 := lines[n - 1].(serviceDate := ParseDate(Field(seg, 3)))]))
  {
  }
}
