/** The canonical element tree of a `Report`, the partner of ReportDecoding:
    every report the schema can carry decodes back from its encoding. */
module ReportEncoding {
  import opened Wrappers
  import opened DmarcReport
  import opened ReportDecoding

  function EncodeAll<T>(xs: seq<T>, encode: T -> Element): (items: seq<Element>)
    ensures |items| == |xs| && forall i :: 0 <= i < |xs| ==> items[i] == encode(xs[i])
  {
    seq(|xs|, i requires 0 <= i < |xs| => encode(xs[i]))
  }

  /** An absent optional field is no element at all. */
  function EncodeOptional<T>(v: Option<T>, encode: T -> Element): seq<Element> {
    if v.Some? then [encode(v.value)] else []
  }

  function EncodeOptionalList<T>(v: Option<seq<T>>, encode: T -> Element): seq<Element> {
    if v.Some? then EncodeAll(v.value, encode) else []
  }

  function EncodeString(s: string): Element {
    Text(s)
  }

  function EncodeUint8(n: uint8): Element {
    Text(ShowNat(n as nat))
  }

  function EncodeUint32(n: uint32): Element {
    Text(ShowNat(n as nat))
  }

  function EncodeDateRange(d: DateRangeType): Element {
    Struct(map["begin" := [EncodeUint32(d.begin)], "end" := [EncodeUint32(d.end)]])
  }

  function EncodeReportMetadata(m: ReportMetadataType): Element {
    Struct(map[
      "org_name" := [EncodeString(m.orgName)],
      "email" := [EncodeString(m.email)],
      "extra_contact_info" := EncodeOptional(m.extraContactInfo, EncodeString),
      "report_id" := [EncodeString(m.reportId)],
      "date_range" := [EncodeDateRange(m.dateRange)],
      "error" := EncodeOptionalList(m.error, EncodeString)])
  }

  function EncodeAlignmentField(a: AlignmentType): Element {
    Text(EncodeAlignment(a))
  }

  function EncodeDispositionField(d: DispositionType): Element {
    Text(EncodeDisposition(d))
  }

  function EncodePolicyPublished(p: PolicyPublishedType): Element {
    Struct(map[
      "domain" := [EncodeString(p.domain)],
      "adkim" := EncodeOptional(p.adkim, EncodeAlignmentField),
      "aspf" := EncodeOptional(p.aspf, EncodeAlignmentField),
      "p" := [EncodeDispositionField(p.p)],
      "sp" := EncodeOptional(p.sp, EncodeDispositionField),
      "pct" := [EncodeUint8(p.pct)],
      "fo" := EncodeOptional(p.fo, EncodeString)])
  }

  function EncodeDmarcResultField(r: DmarcResultType): Element {
    Text(EncodeDmarcResult(r))
  }

  function EncodePolicyOverrideReason(o: PolicyOverrideReason): Element {
    Struct(map["type" := [Text(EncodePolicyOverride(o.kind))], "comment" := EncodeOptional(o.comment, EncodeString)])
  }

  function EncodePolicyEvaluated(p: PolicyEvaluatedType): Element {
    Struct(map[
      "disposition" := [EncodeDispositionField(p.disposition)],
      "dkim" := EncodeOptional(p.dkim, EncodeDmarcResultField),
      "spf" := EncodeOptional(p.spf, EncodeDmarcResultField),
      "reason" := EncodeOptionalList(p.reason, EncodePolicyOverrideReason)])
  }

  /** `showIp` prints an address; `IpAddr`'s text syntax is not part of this model. */
  function EncodeRow(row: RowType, showIp: IpAddr -> string): Element {
    Struct(map[
      "source_ip" := [Text(showIp(row.sourceIp))],
      "count" := [EncodeUint32(row.count)],
      "policy_evaluated" := [EncodePolicyEvaluated(row.policyEvaluated)]])
  }

  function EncodeIdentifiers(i: IdentifierType): Element {
    Struct(map[
      "envelope_to" := EncodeOptional(i.envelopeTo, EncodeString),
      "envelope_from" := EncodeOptional(i.envelopeFrom, EncodeString),
      "header_from" := [EncodeString(i.headerFrom)]])
  }

  function EncodeDkimAuthResult(d: DkimAuthResultType): Element {
    Struct(map[
      "domain" := [EncodeString(d.domain)],
      "selector" := EncodeOptional(d.selector, EncodeString),
      "result" := [Text(EncodeDkimResult(d.result))],
      "human_result" := EncodeOptional(d.humanResult, EncodeString)])
  }

  function EncodeSpfScopeField(s: SpfDomainScope): Element {
    Text(EncodeSpfScope(s))
  }

  function EncodeSpfAuthResult(s: SpfAuthResultType): Element {
    Struct(map[
      "domain" := [EncodeString(s.domain)],
      "scope" := EncodeOptional(s.scope, EncodeSpfScopeField),
      "result" := [Text(EncodeSpfResult(s.result))]])
  }

  function EncodeAuthResults(a: AuthResultType): Element {
    Struct(map["dkim" := EncodeOptionalList(a.dkim, EncodeDkimAuthResult), "spf" := EncodeAll(a.spf, EncodeSpfAuthResult)])
  }

  function EncodeRecord(r: RecordType, showIp: IpAddr -> string): Element {
    Struct(map[
      "row" := [EncodeRow(r.row, showIp)],
      "identifiers" := [EncodeIdentifiers(r.identifiers)],
      "auth_results" := [EncodeAuthResults(r.authResults)]])
  }

  function EncodeReport(r: Report, showIp: IpAddr -> string): Element {
    Struct(map[
      "version" := EncodeOptional(r.version, EncodeString),
      "report_metadata" := [EncodeReportMetadata(r.reportMetadata)],
      "policy_published" := [EncodePolicyPublished(r.policyPublished)],
      "record" := EncodeAll(r.record, (rec: RecordType) => EncodeRecord(rec, showIp))])
  }

  // ---------------------------------------------------------------------
  // Which elements carry which values
  // ---------------------------------------------------------------------

  /** A list with no element is indistinguishable from an absent one, so
      `Some([])` cannot be written down. */
  predicate NotEmptyIfPresent<T>(v: Option<seq<T>>) {
    v.Some? ==> v.value != []
  }

  /** `e` carries `d`: each field is one element holding its canonical text.
      Elements of other names may be anywhere; they are ignored. */
  ghost predicate DateRangeElement(e: Element, d: DateRangeType) {
    e.Struct? &&
    Occurrences(e, "begin") == [EncodeUint32(d.begin)] &&
    Occurrences(e, "end") == [EncodeUint32(d.end)]
  }

  ghost predicate ReportMetadataElement(e: Element, m: ReportMetadataType) {
    e.Struct? &&
    Occurrences(e, "org_name") == [EncodeString(m.orgName)] &&
    Occurrences(e, "email") == [EncodeString(m.email)] &&
    Occurrences(e, "extra_contact_info") == EncodeOptional(m.extraContactInfo, EncodeString) &&
    Occurrences(e, "report_id") == [EncodeString(m.reportId)] &&
    |Occurrences(e, "date_range")| == 1 && DateRangeElement(Occurrences(e, "date_range")[0], m.dateRange) &&
    NotEmptyIfPresent(m.error) && Occurrences(e, "error") == EncodeOptionalList(m.error, EncodeString)
  }

  ghost predicate PolicyPublishedElement(e: Element, p: PolicyPublishedType) {
    e.Struct? &&
    Occurrences(e, "domain") == [EncodeString(p.domain)] &&
    Occurrences(e, "adkim") == EncodeOptional(p.adkim, EncodeAlignmentField) &&
    Occurrences(e, "aspf") == EncodeOptional(p.aspf, EncodeAlignmentField) &&
    Occurrences(e, "p") == [EncodeDispositionField(p.p)] &&
    Occurrences(e, "sp") == EncodeOptional(p.sp, EncodeDispositionField) &&
    Occurrences(e, "pct") == [EncodeUint8(p.pct)] &&
    Occurrences(e, "fo") == EncodeOptional(p.fo, EncodeString)
  }

  ghost predicate PolicyOverrideReasonElement(e: Element, o: PolicyOverrideReason) {
    e.Struct? &&
    Occurrences(e, "type") == [Text(EncodePolicyOverride(o.kind))] &&
    Occurrences(e, "comment") == EncodeOptional(o.comment, EncodeString)
  }

  ghost predicate PolicyEvaluatedElement(e: Element, p: PolicyEvaluatedType) {
    e.Struct? &&
    Occurrences(e, "disposition") == [EncodeDispositionField(p.disposition)] &&
    Occurrences(e, "dkim") == EncodeOptional(p.dkim, EncodeDmarcResultField) &&
    Occurrences(e, "spf") == EncodeOptional(p.spf, EncodeDmarcResultField) &&
    var reasons := Occurrences(e, "reason");
    if p.reason.None? then reasons == []
    else
      |reasons| == |p.reason.value| > 0 &&
      forall i :: 0 <= i < |reasons| ==> PolicyOverrideReasonElement(reasons[i], p.reason.value[i])
  }

  /** The address is held as text that the address parser reads back. */
  ghost predicate RowElement(e: Element, row: RowType) {
    e.Struct? &&
    |Occurrences(e, "source_ip")| == 1 && Occurrences(e, "source_ip")[0].Text? &&
    ParseIp(Occurrences(e, "source_ip")[0].text) == Some(row.sourceIp) &&
    Occurrences(e, "count") == [EncodeUint32(row.count)] &&
    |Occurrences(e, "policy_evaluated")| == 1 &&
    PolicyEvaluatedElement(Occurrences(e, "policy_evaluated")[0], row.policyEvaluated)
  }

  ghost predicate IdentifiersElement(e: Element, i: IdentifierType) {
    e.Struct? &&
    Occurrences(e, "envelope_to") == EncodeOptional(i.envelopeTo, EncodeString) &&
    Occurrences(e, "envelope_from") == EncodeOptional(i.envelopeFrom, EncodeString) &&
    Occurrences(e, "header_from") == [EncodeString(i.headerFrom)]
  }

  ghost predicate DkimAuthResultElement(e: Element, d: DkimAuthResultType) {
    e.Struct? &&
    Occurrences(e, "domain") == [EncodeString(d.domain)] &&
    Occurrences(e, "selector") == EncodeOptional(d.selector, EncodeString) &&
    Occurrences(e, "result") == [Text(EncodeDkimResult(d.result))] &&
    Occurrences(e, "human_result") == EncodeOptional(d.humanResult, EncodeString)
  }

  ghost predicate SpfAuthResultElement(e: Element, s: SpfAuthResultType) {
    e.Struct? &&
    Occurrences(e, "domain") == [EncodeString(s.domain)] &&
    Occurrences(e, "scope") == EncodeOptional(s.scope, EncodeSpfScopeField) &&
    Occurrences(e, "result") == [Text(EncodeSpfResult(s.result))]
  }

  ghost predicate AuthResultsElement(e: Element, a: AuthResultType) {
    e.Struct? &&
    var dkim := Occurrences(e, "dkim");
    var spf := Occurrences(e, "spf");
    (if a.dkim.None? then dkim == []
     else
       |dkim| == |a.dkim.value| > 0 &&
       forall i :: 0 <= i < |dkim| ==> DkimAuthResultElement(dkim[i], a.dkim.value[i])) &&
    |spf| == |a.spf| > 0 &&
    forall i :: 0 <= i < |spf| ==> SpfAuthResultElement(spf[i], a.spf[i])
  }

  ghost predicate RecordElement(e: Element, r: RecordType) {
    e.Struct? &&
    |Occurrences(e, "row")| == 1 && RowElement(Occurrences(e, "row")[0], r.row) &&
    |Occurrences(e, "identifiers")| == 1 && IdentifiersElement(Occurrences(e, "identifiers")[0], r.identifiers) &&
    |Occurrences(e, "auth_results")| == 1 && AuthResultsElement(Occurrences(e, "auth_results")[0], r.authResults)
  }

  /** `e` is a document of `r`. */
  ghost predicate ReportElement(e: Element, r: Report) {
    e.Struct? &&
    Occurrences(e, "version") == EncodeOptional(r.version, EncodeString) &&
    |Occurrences(e, "report_metadata")| == 1 && ReportMetadataElement(Occurrences(e, "report_metadata")[0], r.reportMetadata) &&
    |Occurrences(e, "policy_published")| == 1 && PolicyPublishedElement(Occurrences(e, "policy_published")[0], r.policyPublished) &&
    var records := Occurrences(e, "record");
    |records| == |r.record| > 0 &&
    forall i :: 0 <= i < |records| ==> RecordElement(records[i], r.record[i])
  }

  // ---------------------------------------------------------------------
  // Decoding an element gives back the value it carries
  // ---------------------------------------------------------------------

  /** A list decodes to `xs` when its elements decode, one by one, to `xs`. */
  lemma DecodeAllOf<T>(items: seq<Element>, decode: Element -> Result<T, DecodeError>, xs: seq<T>)
    requires |items| == |xs|
    requires forall i :: 0 <= i < |items| ==> decode(items[i]) == Success(xs[i])
    ensures DecodeAll(items, decode) == Success(xs)
  {
    var r := DecodeAll(items, decode);
    assert r.Success?;
    assert forall i :: 0 <= i < |xs| ==> r.value[i] == xs[i];
    assert r.value == xs;
  }

  lemma DateRangeElementDecodes(e: Element, d: DateRangeType)
    requires DateRangeElement(e, d)
    ensures DecodeDateRange(e) == Success(d)
  {
    ParseShowRoundTrip(d.begin as nat, 0x1_0000_0000);
    ParseShowRoundTrip(d.end as nat, 0x1_0000_0000);
  }

  lemma ReportMetadataElementDecodes(e: Element, m: ReportMetadataType)
    requires ReportMetadataElement(e, m)
    ensures DecodeReportMetadata(e) == Success(m)
  {
    DateRangeElementDecodes(Occurrences(e, "date_range")[0], m.dateRange);
    if m.error.Some? {
      DecodeAllOf(Occurrences(e, "error"), DecodeString, m.error.value);
    }
  }

  lemma PolicyPublishedElementDecodes(e: Element, p: PolicyPublishedType)
    requires PolicyPublishedElement(e, p)
    ensures DecodePolicyPublished(e) == Success(p)
  {
    assert Required(e, "domain", DecodeString) == Success(p.domain);
    assert Optional(e, "adkim", DecodeAlignmentField) == Success(p.adkim);
    assert Optional(e, "aspf", DecodeAlignmentField) == Success(p.aspf);
    assert Required(e, "p", DecodeDispositionField) == Success(p.p);
    assert Optional(e, "sp", DecodeDispositionField) == Success(p.sp);
    assert Required(e, "pct", DecodeUint8) == Success(p.pct) by {
      ParseShowRoundTrip(p.pct as nat, 0x100);
    }
    assert Optional(e, "fo", DecodeString) == Success(p.fo);
  }

  lemma PolicyEvaluatedElementDecodes(e: Element, p: PolicyEvaluatedType)
    requires PolicyEvaluatedElement(e, p)
    ensures DecodePolicyEvaluated(e) == Success(p)
  {
    if p.reason.Some? {
      var reasons := Occurrences(e, "reason");
      forall i | 0 <= i < |reasons|
        ensures DecodePolicyOverrideReason(reasons[i]) == Success(p.reason.value[i])
      {
        var o := p.reason.value[i];
        assert DecodePolicyOverride(EncodePolicyOverride(o.kind)) == Some(o.kind);
      }
      DecodeAllOf(reasons, DecodePolicyOverrideReason, p.reason.value);
    }
  }

  lemma RowElementDecodes(e: Element, row: RowType)
    requires RowElement(e, row)
    ensures DecodeRow(e) == Success(row)
  {
    ParseShowRoundTrip(row.count as nat, 0x1_0000_0000);
    PolicyEvaluatedElementDecodes(Occurrences(e, "policy_evaluated")[0], row.policyEvaluated);
  }

  lemma AuthResultsElementDecodes(e: Element, a: AuthResultType)
    requires AuthResultsElement(e, a)
    ensures DecodeAuthResults(e) == Success(a)
  {
    if a.dkim.Some? {
      var dkim := Occurrences(e, "dkim");
      forall i | 0 <= i < |dkim|
        ensures DecodeDkimAuthResult(dkim[i]) == Success(a.dkim.value[i])
      {
        var d := a.dkim.value[i];
        assert DecodeDkimResult(EncodeDkimResult(d.result)) == Some(d.result);
      }
      DecodeAllOf(dkim, DecodeDkimAuthResult, a.dkim.value);
    }
    var spf := Occurrences(e, "spf");
    forall i | 0 <= i < |spf|
      ensures DecodeSpfAuthResult(spf[i]) == Success(a.spf[i])
    {
      var s := a.spf[i];
      assert DecodeSpfResult(EncodeSpfResult(s.result)) == Some(s.result);
    }
    DecodeAllOf(spf, DecodeSpfAuthResult, a.spf);
  }

  lemma RecordElementDecodes(e: Element, r: RecordType)
    requires RecordElement(e, r)
    ensures DecodeRecord(e) == Success(r)
  {
    RowElementDecodes(Occurrences(e, "row")[0], r.row);
    AuthResultsElementDecodes(Occurrences(e, "auth_results")[0], r.authResults);
  }

  /** Every document of a report decodes to that report, whatever else the
      document holds and in whatever order its fields come. */
  lemma ReportElementDecodes(e: Element, r: Report)
    requires ReportElement(e, r)
    ensures DecodeReport(e) == Success(r)
  {
    ReportMetadataElementDecodes(Occurrences(e, "report_metadata")[0], r.reportMetadata);
    PolicyPublishedElementDecodes(Occurrences(e, "policy_published")[0], r.policyPublished);
    var records := Occurrences(e, "record");
    forall i | 0 <= i < |records|
      ensures DecodeRecord(records[i]) == Success(r.record[i])
    {
      RecordElementDecodes(records[i], r.record[i]);
    }
    DecodeAllOf(records, DecodeRecord, r.record);
  }

  // ---------------------------------------------------------------------
  // The canonical encoding is a document of its report
  // ---------------------------------------------------------------------

  predicate RepresentableRecord(r: RecordType) {
    NotEmptyIfPresent(r.row.policyEvaluated.reason) &&
    NotEmptyIfPresent(r.authResults.dkim) &&
    r.authResults.spf != []
  }

  /** The reports a document can carry: besides `Some([])` nowhere, a list
      without default (the records, a record's SPF results) is never empty. */
  predicate Representable(r: Report) {
    NotEmptyIfPresent(r.reportMetadata.error) &&
    r.record != [] &&
    forall i :: 0 <= i < |r.record| ==> RepresentableRecord(r.record[i])
  }

  lemma EncodedReportMetadataIsElement(m: ReportMetadataType)
    requires NotEmptyIfPresent(m.error)
    ensures ReportMetadataElement(EncodeReportMetadata(m), m)
  {}

  lemma EncodedPolicyPublishedIsElement(p: PolicyPublishedType)
    ensures PolicyPublishedElement(EncodePolicyPublished(p), p)
  {}

  lemma EncodedPolicyEvaluatedIsElement(p: PolicyEvaluatedType)
    requires NotEmptyIfPresent(p.reason)
    ensures PolicyEvaluatedElement(EncodePolicyEvaluated(p), p)
  {}

  lemma EncodedRowIsElement(row: RowType, showIp: IpAddr -> string)
    requires ParseIp(showIp(row.sourceIp)) == Some(row.sourceIp)
    requires NotEmptyIfPresent(row.policyEvaluated.reason)
    ensures RowElement(EncodeRow(row, showIp), row)
  {
    EncodedPolicyEvaluatedIsElement(row.policyEvaluated);
  }

  lemma EncodedDkimAuthResultIsElement(d: DkimAuthResultType)
    ensures DkimAuthResultElement(EncodeDkimAuthResult(d), d)
  {}

  lemma EncodedSpfAuthResultIsElement(s: SpfAuthResultType)
    ensures SpfAuthResultElement(EncodeSpfAuthResult(s), s)
  {}

  lemma EncodedAuthResultsIsElement(a: AuthResultType)
    requires NotEmptyIfPresent(a.dkim) && a.spf != []
    ensures AuthResultsElement(EncodeAuthResults(a), a)
  {
    var e := EncodeAuthResults(a);
    if a.dkim.Some? {
      var dkim := Occurrences(e, "dkim");
      forall i | 0 <= i < |dkim|
        ensures DkimAuthResultElement(dkim[i], a.dkim.value[i])
      {
        EncodedDkimAuthResultIsElement(a.dkim.value[i]);
      }
    }
    var spf := Occurrences(e, "spf");
    forall i | 0 <= i < |spf|
      ensures SpfAuthResultElement(spf[i], a.spf[i])
    {
      EncodedSpfAuthResultIsElement(a.spf[i]);
    }
  }

  lemma EncodedRecordIsElement(r: RecordType, showIp: IpAddr -> string)
    requires ParseIp(showIp(r.row.sourceIp)) == Some(r.row.sourceIp)
    requires RepresentableRecord(r)
    ensures RecordElement(EncodeRecord(r, showIp), r)
  {
    var e := EncodeRecord(r, showIp);
    assert RowElement(Occurrences(e, "row")[0], r.row) by {
      EncodedRowIsElement(r.row, showIp);
    }
    assert AuthResultsElement(Occurrences(e, "auth_results")[0], r.authResults) by {
      EncodedAuthResultsIsElement(r.authResults);
    }
  }

  lemma EncodedReportFields(r: Report, showIp: IpAddr -> string)
    ensures var e := EncodeReport(r, showIp);
            e.Struct? &&
            Occurrences(e, "version") == EncodeOptional(r.version, EncodeString) &&
            Occurrences(e, "report_metadata") == [EncodeReportMetadata(r.reportMetadata)] &&
            Occurrences(e, "policy_published") == [EncodePolicyPublished(r.policyPublished)] &&
            Occurrences(e, "record") == EncodeAll(r.record, (rec: RecordType) => EncodeRecord(rec, showIp))
  {}

  lemma EncodedReportIsElement(r: Report, showIp: IpAddr -> string)
    requires forall ip :: ParseIp(showIp(ip)) == Some(ip)
    requires Representable(r)
    ensures ReportElement(EncodeReport(r, showIp), r)
  {
    var e := EncodeReport(r, showIp);
    EncodedReportFields(r, showIp);
    EncodedReportMetadataIsElement(r.reportMetadata);
    EncodedPolicyPublishedIsElement(r.policyPublished);
    var records := Occurrences(e, "record");
    forall i | 0 <= i < |records|
      ensures RecordElement(records[i], r.record[i])
    {
      assert records[i] == EncodeRecord(r.record[i], showIp);
      EncodedRecordIsElement(r.record[i], showIp);
    }
  }

  /** Every report a document can carry decodes back from its canonical
      encoding, given an address printer that the address parser inverts. */
  lemma ReportRoundTrip(r: Report, showIp: IpAddr -> string)
    requires forall ip :: ParseIp(showIp(ip)) == Some(ip)
    requires Representable(r)
    ensures DecodeReport(EncodeReport(r, showIp)) == Success(r)
  {
    EncodedReportIsElement(r, showIp);
    ReportElementDecodes(EncodeReport(r, showIp), r);
  }
}
