/** Output assembly: after the loop, each claim becomes a list of twelve
    named sections, and the whole translation is delimiter detection,
    tokenizing, the loop and this assembly. */
module Assembly {
  import opened Wrappers
  import opened Values
  import opened Tokenizer
  import opened Records
  import opened Dispatcher

  /** The `claim` section: the claim without its diagnosis, lines and
      parties. */
  datatype ClaimSummary = ClaimSummary(
    id: string, totalCharge: Amount, placeOfService: string, serviceType: string,
    indicators: Indicators, onsetDate: string, clearinghouseClaimNumber: string)

  /** The `data` of one section. `PayerData(None)` and `RenderingData(None)`
      are the empty object `{}`. */
  datatype SectionData =
    | TransactionData(transaction: Transaction)
    | SubmitterData(submitter: Submitter)
    | ReceiverData(receiver: Receiver)
    | ProviderData(provider: Provider)
    | SubscriberData(subscriber: Subscriber)
    | PayerData(payer: Option<Payer>)
    | ClaimData(summary: ClaimSummary)
    | DiagnosisData(diagnosis: Diagnosis)
    | RenderingData(rendering: Option<RenderingProvider>)
    | LinesData(lines: seq<ServiceLine>)

  datatype Section = Section(name: string, data: SectionData)

  /** The section names, in output order. */
  const SectionNames: seq<string> := [
    "transaction", "submitter", "receiver", "billing_Provider", "Pay_To_provider",
    "subscriber", "payer", "claim", "diagnosis", "renderingProvider",
    "serviceFacility", "service_Lines"]

  /** One claim: its sections directly. Several: one section list each. */
  datatype Output = Single(sections: seq<Section>) | Batch(claims: seq<seq<Section>>)

  /** The section lists of an output, one per claim. */
  function SectionLists(out: Output): (r: seq<seq<Section>>) {
    match out
    case Single(sections) => [sections]
    case Batch(claims) => claims
  }

  /** The pay-to provider as output: the billing provider when the pay-to
      provider has no name or an empty one. */
  function PayToOrBilling(payTo: Provider, billing: Provider): (r: Provider)
    ensures payTo.name.Some? && payTo.name.value != "" ==> r == payTo
    ensures payTo.name.None? || payTo.name.value == "" ==> r == billing
  {
    if payTo.name.None? || payTo.name.value == "" then billing else payTo
  }

  function Summary(c: Claim): (s: ClaimSummary)
    ensures s.id == c.id && s.placeOfService == c.placeOfService
  {
    ClaimSummary(c.id, c.totalCharge, c.placeOfService, c.serviceType, c.indicators,
                 c.onsetDate, c.clearinghouseClaimNumber)
  }

  /** The twelve sections of one claim. The first six come from the final
      global records; payer, rendering provider and facility fall back to
      the global payer, `{}` and the billing provider. */
  function ClaimSections(st: State, c: Claim): (r: seq<Section>)
    ensures |r| == |SectionNames|
    ensures forall i :: 0 <= i < |r| ==> r[i].name == SectionNames[i]
    ensures r[..6] == GlobalSections(st)
    ensures r[6].data == PayerData(if c.payer.Some? then c.payer else st.payer)
    ensures r[7].data == ClaimData(Summary(c))
    ensures r[8].data == DiagnosisData(c.diagnosis)
    ensures r[9].data == RenderingData(c.renderingProvider)
    ensures r[10].data == ProviderData(if c.serviceFacility.Some? then c.serviceFacility.value else st.billing)
    ensures r[11].data == LinesData(c.serviceLines)
  {
    GlobalSections(st) + [
      Section("payer", PayerData(if c.payer.Some? then c.payer else st.payer)),
      Section("claim", ClaimData(Summary(c))),
      Section("diagnosis", DiagnosisData(c.diagnosis)),
      Section("renderingProvider", RenderingData(c.renderingProvider)),
      Section("serviceFacility", ProviderData(c.serviceFacility.GetOr(st.billing))),
      Section("service_Lines", LinesData(c.serviceLines))]
  }

  /** The six sections every claim shares: the records as they stand after
      the last segment. */
  function GlobalSections(st: State): (r: seq<Section>)
    ensures |r| == 6
    ensures forall i :: 0 <= i < 6 ==> r[i].name == SectionNames[i]
    ensures r[0].data == TransactionData(st.transaction)
    ensures r[1].data == SubmitterData(st.submitter)
    ensures r[2].data == ReceiverData(st.receiver)
    ensures r[3].data == ProviderData(st.billing)
    ensures r[4].data == ProviderData(PayToOrBilling(st.payTo, st.billing))
    ensures r[5].data == SubscriberData(st.subscriber)
  {
    [Section("transaction", TransactionData(st.transaction)),
     Section("submitter", SubmitterData(st.submitter)),
     Section("receiver", ReceiverData(st.receiver)),
     Section("billing_Provider", ProviderData(st.billing)),
     Section("Pay_To_provider", ProviderData(PayToOrBilling(st.payTo, st.billing))),
     Section("subscriber", SubscriberData(st.subscriber))]
  }

  /** The end of the loop: the open claim is saved, no claim at all is an
      error, one claim gives its sections, several give a list of them. */
  function Finish(st: State): (r: Result<Output, TranslationError>)
    ensures r.Failure? <==> AllClaims(st) == []
    ensures r.Failure? ==> r.error == NoClaims
    ensures r.Success? ==>
      && (r.value.Single? <==> |AllClaims(st)| == 1)
      && SectionLists(r.value) == Results(st)
  {
    var results := Results(st);
    if |results| == 0 then Failure(NoClaims)
    else if |results| == 1 then
      Singleton(results);
      Success(Single(results[0]))
    else Success(Batch(results))
  }

  /** A one-element list is the list of its element. */
  lemma Singleton<T>(s: seq<T>)
    requires |s| == 1
    ensures [s[0]] == s
  {
  }

  /** The section list of every claim, in claim order. */
  function Results(st: State): (r: seq<seq<Section>>)
    ensures |r| == |AllClaims(st)|
    ensures forall k :: 0 <= k < |r| ==> r[k] == ClaimSections(st, AllClaims(st)[k])
  {
    var claims := AllClaims(st);
    seq(|claims|, k requires 0 <= k < |claims| => ClaimSections(st, claims[k]))
  }

  /** The translator from the decoded file contents to its output. */
  function Translate(content: string): (r: Result<Output, TranslationError>)
    ensures ReadSegments(content).Failure? ==> r == Failure(ReadSegments(content).error)
    ensures ReadSegments(content).Success? && r.Failure? ==> r.error == NoClaims
    ensures r.Success? ==>
      SectionLists(r.value) == Results(Run(Initial, ReadSegments(content).value.segments))
  {
    var reading :- ReadSegments(content);
    Finish(Run(Initial, reading.segments))
  }

  /** Errors and shape of a translation: delimiter errors pass through, no
      `CLM` segment is the no-claims error, and otherwise there is one list
      of the twelve named sections per `CLM`, a single one returned bare. */
  lemma TranslateOutcome(content: string)
    ensures ReadSegments(content).Failure? ==>
      Translate(content) == Failure(ReadSegments(content).error)
    ensures ReadSegments(content).Success? ==>
      var segs := ReadSegments(content).value.segments;
      && (Translate(content).Failure? <==> ClmCount(segs) == 0)
      && (Translate(content).Failure? ==> Translate(content).error == NoClaims)
      && (Translate(content).Success? ==>
            var lists := SectionLists(Translate(content).value);
            && |lists| == ClmCount(segs)
            && (Translate(content).value.Single? <==> ClmCount(segs) == 1)
            && forall k :: 0 <= k < |lists| ==>
                 |lists[k]| == 12 && forall i :: 0 <= i < 12 ==> lists[k][i].name == SectionNames[i])
  {
    if ReadSegments(content).Success? {
      var segs := ReadSegments(content).value.segments;
      ClaimCount(segs);
      FinishOutcome(Run(Initial, segs), ClmCount(segs));
    }
  }

  /** The outcome of the assembly for a state holding `n` claims. */
  lemma FinishOutcome(st: State, n: nat)
    requires |AllClaims(st)| == n
    ensures Finish(st).Failure? <==> n == 0
    ensures Finish(st).Failure? ==> Finish(st).error == NoClaims
    ensures Finish(st).Success? ==>
      var lists := SectionLists(Finish(st).value);
      && |lists| == n
      && (Finish(st).value.Single? <==> n == 1)
      && forall k :: 0 <= k < |lists| ==>
           |lists[k]| == 12 && forall i :: 0 <= i < 12 ==> lists[k][i].name == SectionNames[i]
  {
    if Finish(st).Success? {
      NamedSections(st);
    }
  }

  /** Every section list of a successful output has the twelve names in
      order. */
  lemma NamedSections(st: State)
    requires Finish(st).Success?
    ensures forall k :: 0 <= k < |SectionLists(Finish(st).value)| ==>
      var list := SectionLists(Finish(st).value)[k];
      |list| == 12 && forall i :: 0 <= i < 12 ==> list[i].name == SectionNames[i]
  {
    var lists: seq<seq<Section>> := SectionLists(Finish(st).value);
    forall k | 0 <= k < |lists|
      ensures |lists[k]| == 12 && forall i :: 0 <= i < 12 ==> lists[k][i].name == SectionNames[i]
    {
      assert lists[k] == ClaimSections(st, AllClaims(st)[k]);
    }
  }

  /** Every claim shows the same transaction, submitter, receiver,
      providers and subscriber: the last ones the file set. */
  lemma SharedSections(st: State)
    requires Finish(st).Success?
    ensures forall k :: 0 <= k < |SectionLists(Finish(st).value)| ==>
      SectionLists(Finish(st).value)[k][..6] == GlobalSections(st)
  {
  }

  /** The translator as the source runs it: one pass over the segments
      with the state updated in place, then the assembly. */
  method ParseForViewer(content: string) returns (r: Result<Output, TranslationError>)
    ensures r == Translate(content)
    ensures ReadSegments(content).Failure? ==> r == Failure(ReadSegments(content).error)
    ensures ReadSegments(content).Success? ==>
      var segs := ReadSegments(content).value.segments;
      && (r.Failure? <==> ClmCount(segs) == 0)
      && (r.Failure? ==> r.error == NoClaims)
      && (r.Success? ==>
            var lists := SectionLists(r.value);
            && |lists| == ClmCount(segs)
            && (r.value.Single? <==> ClmCount(segs) == 1)
            && forall k :: 0 <= k < |lists| ==>
                 |lists[k]| == 12 && forall i :: 0 <= i < 12 ==> lists[k][i].name == SectionNames[i])
  {
    var reading := ReadSegments(content);
    if reading.Failure? {
      return Failure(reading.error);
    }
    var st := RunLoop(reading.value.segments);
    r := Finish(st);
    TranslateOutcome(content);
  }

  /** The segment loop, one `Step` per segment in order. */
  method RunLoop(segs: seq<Segment>) returns (st: State)
    ensures st == Run(Initial, segs)
  {
    st := Initial;
    var i := 0;
    while i < |segs|
      invariant 0 <= i <= |segs|
      invariant st == Run(Initial, segs[..i])
    {
      RunPrefix(Initial, segs, i);
      st := Step(st, segs[i]);
      i := i + 1;
    }
    assert segs[..|segs|] == segs;
  }
}
