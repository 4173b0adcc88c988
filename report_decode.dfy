/** How a DMARC document becomes a `Report`: the field rules that
    `derive(Deserialize)` gives the record tree of dmarc_report.rs, stated
    over an element tree whose tokens the XML layer has already separated.

    A field of type `T` needs exactly one element of its name; `Option<T>`
    allows none (then `None`); `Vec<T>` collects every element of its name
    in document order and, having no default, needs at least one;
    `Option<Vec<T>>` allows none. Elements no field names are ignored. */
module ReportDecoding {
  import opened Wrappers
  import opened DmarcReport

  /** An element: either text content, or child elements grouped by name,
      each name mapped to its occurrences in document order. */
  datatype Element = Text(text: string) | Struct(children: map<string, seq<Element>>)

  datatype DecodeError =
    | MissingField(name: string)
    | DuplicateField(name: string)
    | UnknownVariant(token: string)
    | InvalidNumber(text: string)
    | InvalidAddress(text: string)
    | ExpectedText
    | ExpectedStruct

  /** The address parser of the standard library (`IpAddr: FromStr`), whose
      syntax is not part of this model: some fixed total function. */
  const ParseIp: string -> Option<IpAddr>

  // ---------------------------------------------------------------------
  // Leaves
  // ---------------------------------------------------------------------

  predicate IsDigit(c: char) {
    '0' <= c <= '9'
  }

  predicate AllDigits(s: string) {
    forall i :: 0 <= i < |s| ==> IsDigit(s[i])
  }

  /** The value of a string of decimal digits, most significant first. */
  function DigitsValue(s: string): nat
    requires AllDigits(s)
  {
    if s == [] then 0 else DigitsValue(s[..|s| - 1]) * 10 + (s[|s| - 1] as int - '0' as int)
  }

  /** The text after one optional leading `+`. */
  function WithoutPlus(text: string): string {
    if |text| > 0 && text[0] == '+' then text[1..] else text
  }

  /** Rust's `str::parse` for an unsigned integer type whose values are below
      `bound`: an optional `+`, then at least one decimal digit; a value that
      does not fit the type is an error, not a wrap-around. */
  function ParseUnsigned(text: string, bound: nat): (r: Option<nat>)
    ensures var digits := WithoutPlus(text);
            r.Some? <==> digits != [] && AllDigits(digits) && DigitsValue(digits) < bound
    ensures r.Some? ==> r.value == DigitsValue(WithoutPlus(text)) && r.value < bound
  {
    var digits := WithoutPlus(text);
    if digits == [] || !AllDigits(digits) then Option.None
    else if DigitsValue(digits) < bound then Some(DigitsValue(digits))
    else Option.None
  }

  /** The canonical decimal text of `n`: no sign, no leading zero. */
  function ShowNat(n: nat): (s: string)
    ensures AllDigits(s) && s != []
  {
    if n < 10 then [(n + '0' as int) as char] else ShowNat(n / 10) + [(n % 10 + '0' as int) as char]
  }

  lemma {:induction false} ShowNatValue(n: nat)
    ensures DigitsValue(ShowNat(n)) == n
    ensures ShowNat(n)[0] != '+'
  {
    if n >= 10 {
      var s := ShowNat(n);
      ShowNatValue(n / 10);
      assert s[..|s| - 1] == ShowNat(n / 10);
    }
  }

  /** Every in-range number reads back from its canonical text. */
  lemma ParseShowRoundTrip(n: nat, bound: nat)
    requires n < bound
    ensures ParseUnsigned(ShowNat(n), bound) == Some(n)
  {
    ShowNatValue(n);
  }

  /** A number too large for the type is rejected, not wrapped. */
  lemma ParseShowOutOfRange(n: nat, bound: nat)
    requires bound <= n
    ensures ParseUnsigned(ShowNat(n), bound) == Option.None
  {
    ShowNatValue(n);
  }

  function DecodeString(e: Element): Result<string, DecodeError> {
    if e.Text? then Success(e.text) else Failure(ExpectedText)
  }

  function DecodeUint8(e: Element): (r: Result<uint8, DecodeError>)
    ensures r.Success? <==> e.Text? && ParseUnsigned(e.text, 0x100).Some?
    ensures r.Success? ==> r.value as nat == ParseUnsigned(e.text, 0x100).value
    ensures e.Text? && ParseUnsigned(e.text, 0x100).None? ==> r == Failure(InvalidNumber(e.text))
  {
    if !e.Text? then Failure(ExpectedText)
    else match ParseUnsigned(e.text, 0x100)
      case Some(n) => Success(n as uint8)
      case None => Failure(InvalidNumber(e.text))
  }

  function DecodeUint32(e: Element): (r: Result<uint32, DecodeError>)
    ensures r.Success? <==> e.Text? && ParseUnsigned(e.text, 0x1_0000_0000).Some?
    ensures r.Success? ==> r.value as nat == ParseUnsigned(e.text, 0x1_0000_0000).value
    ensures e.Text? && ParseUnsigned(e.text, 0x1_0000_0000).None? ==> r == Failure(InvalidNumber(e.text))
  {
    if !e.Text? then Failure(ExpectedText)
    else match ParseUnsigned(e.text, 0x1_0000_0000)
      case Some(n) => Success(n as uint32)
      case None => Failure(InvalidNumber(e.text))
  }

  function DecodeIp(e: Element): (r: Result<IpAddr, DecodeError>)
    ensures r.Success? <==> e.Text? && ParseIp(e.text).Some?
    ensures r.Success? ==> r.value == ParseIp(e.text).value
    ensures e.Text? && ParseIp(e.text).None? ==> r == Failure(InvalidAddress(e.text))
  {
    if !e.Text? then Failure(ExpectedText)
    else match ParseIp(e.text)
      case Some(ip) => Success(ip)
      case None => Failure(InvalidAddress(e.text))
  }

  /** An enumeration field: the text must be one of the variant tokens. */
  function DecodeToken<T>(e: Element, decode: string -> Option<T>): (r: Result<T, DecodeError>)
    ensures r.Success? <==> e.Text? && decode(e.text).Some?
    ensures r.Success? ==> r.value == decode(e.text).value
  {
    if !e.Text? then Failure(ExpectedText)
    else match decode(e.text)
      case Some(v) => Success(v)
      case None => Failure(UnknownVariant(e.text))
  }

  function DecodeAlignmentField(e: Element): Result<AlignmentType, DecodeError> {
    DecodeToken(e, DecodeAlignment)
  }

  function DecodeDispositionField(e: Element): Result<DispositionType, DecodeError> {
    DecodeToken(e, DecodeDisposition)
  }

  function DecodeDmarcResultField(e: Element): Result<DmarcResultType, DecodeError> {
    DecodeToken(e, DecodeDmarcResult)
  }

  function DecodePolicyOverrideField(e: Element): Result<PolicyOverrideType, DecodeError> {
    DecodeToken(e, DecodePolicyOverride)
  }

  function DecodeDkimResultField(e: Element): Result<DkimResultType, DecodeError> {
    DecodeToken(e, DecodeDkimResult)
  }

  function DecodeSpfScopeField(e: Element): Result<SpfDomainScope, DecodeError> {
    DecodeToken(e, DecodeSpfScope)
  }

  function DecodeSpfResultField(e: Element): Result<SpfResultType, DecodeError> {
    DecodeToken(e, DecodeSpfResult)
  }

  // ---------------------------------------------------------------------
  // The field rules
  // ---------------------------------------------------------------------

  /** The elements named `name` directly inside `e`, in document order. */
  function Occurrences(e: Element, name: string): seq<Element> {
    if e.Struct? && name in e.children then e.children[name] else []
  }

  /** A required field decodes: exactly one element, and it decodes. */
  ghost predicate RequiredDecodes<T>(e: Element, name: string, decode: Element -> Result<T, DecodeError>) {
    |Occurrences(e, name)| == 1 && decode(Occurrences(e, name)[0]).Success?
  }

  /** An optional field decodes: no element, or one that decodes. */
  ghost predicate OptionalDecodes<T>(e: Element, name: string, decode: Element -> Result<T, DecodeError>) {
    |Occurrences(e, name)| == 0 || RequiredDecodes(e, name, decode)
  }

  /** A list field decodes: at least one element, and every one decodes. */
  ghost predicate ListDecodes<T>(e: Element, name: string, decode: Element -> Result<T, DecodeError>) {
    |Occurrences(e, name)| > 0 && OptionalListDecodes(e, name, decode)
  }

  ghost predicate OptionalListDecodes<T>(e: Element, name: string, decode: Element -> Result<T, DecodeError>) {
    forall i :: 0 <= i < |Occurrences(e, name)| ==> decode(Occurrences(e, name)[i]).Success?
  }

  /** `v` is what the single element `name` of `e` decodes to. */
  ghost predicate HasRequired<T>(e: Element, name: string, decode: Element -> Result<T, DecodeError>, v: T) {
    |Occurrences(e, name)| == 1 && decode(Occurrences(e, name)[0]) == Success(v)
  }

  /** `v` is `None` exactly when `e` has no element `name`, else what that one element decodes to. */
  ghost predicate HasOptional<T>(e: Element, name: string, decode: Element -> Result<T, DecodeError>, v: Option<T>) {
    if |Occurrences(e, name)| == 0 then v == Option.None
    else v.Some? && HasRequired(e, name, decode, v.value)
  }

  /** `v` lists what the elements `name` of `e` decode to, in document order. */
  ghost predicate HasList<T>(e: Element, name: string, decode: Element -> Result<T, DecodeError>, v: seq<T>) {
    |v| == |Occurrences(e, name)| &&
    forall i :: 0 <= i < |v| ==> decode(Occurrences(e, name)[i]) == Success(v[i])
  }

  ghost predicate HasOptionalList<T>(e: Element, name: string, decode: Element -> Result<T, DecodeError>, v: Option<seq<T>>) {
    if |Occurrences(e, name)| == 0 then v == Option.None
    else v.Some? && HasList(e, name, decode, v.value)
  }

  /** Decodes a list of elements in order; the first that fails fails the list. */
  function DecodeAll<T>(items: seq<Element>, decode: Element -> Result<T, DecodeError>): (r: Result<seq<T>, DecodeError>)
    ensures r.Success? <==> forall i :: 0 <= i < |items| ==> decode(items[i]).Success?
    ensures r.Success? ==> |r.value| == |items| && forall i :: 0 <= i < |items| ==> decode(items[i]) == Success(r.value[i])
    decreases |items|
  {
    if items == [] then Success([])
    else
      var first :- decode(items[0]);
      var rest :- DecodeAll(items[1..], decode);
      Success([first] + rest)
  }

  function Required<T>(e: Element, name: string, decode: Element -> Result<T, DecodeError>): (r: Result<T, DecodeError>)
    ensures r.Success? <==> RequiredDecodes(e, name, decode)
    ensures r.Success? ==> HasRequired(e, name, decode, r.value)
    ensures Occurrences(e, name) == [] ==> r == Failure(MissingField(name))
  {
    var occ := Occurrences(e, name);
    if occ == [] then Failure(MissingField(name))
    else if |occ| > 1 then Failure(DuplicateField(name))
    else decode(occ[0])
  }

  function Optional<T>(e: Element, name: string, decode: Element -> Result<T, DecodeError>): (r: Result<Option<T>, DecodeError>)
    ensures r.Success? <==> OptionalDecodes(e, name, decode)
    ensures r.Success? ==> HasOptional(e, name, decode, r.value)
  {
    if Occurrences(e, name) == [] then Success(Option.None)
    else
      var v :- Required(e, name, decode);
      Success(Some(v))
  }

  function RequiredList<T>(e: Element, name: string, decode: Element -> Result<T, DecodeError>): (r: Result<seq<T>, DecodeError>)
    ensures r.Success? <==> ListDecodes(e, name, decode)
    ensures r.Success? ==> HasList(e, name, decode, r.value)
    ensures Occurrences(e, name) == [] ==> r == Failure(MissingField(name))
  {
    if Occurrences(e, name) == [] then Failure(MissingField(name))
    else DecodeAll(Occurrences(e, name), decode)
  }

  function OptionalList<T>(e: Element, name: string, decode: Element -> Result<T, DecodeError>): (r: Result<Option<seq<T>>, DecodeError>)
    ensures r.Success? <==> OptionalListDecodes(e, name, decode)
    ensures r.Success? ==> HasOptionalList(e, name, decode, r.value)
  {
    if Occurrences(e, name) == [] then Success(Option.None)
    else
      var vs :- DecodeAll(Occurrences(e, name), decode);
      Success(Some(vs))
  }

  // ---------------------------------------------------------------------
  // The record tree, struct by struct, fields in declaration order
  // ---------------------------------------------------------------------

  function DecodeDateRange(e: Element): (r: Result<DateRangeType, DecodeError>)
    ensures r.Success? <==> e.Struct? && RequiredDecodes(e, "begin", DecodeUint32) && RequiredDecodes(e, "end", DecodeUint32)
    ensures r.Success? ==> HasRequired(e, "begin", DecodeUint32, r.value.begin) && HasRequired(e, "end", DecodeUint32, r.value.end)
  {
    if !e.Struct? then Failure(ExpectedStruct)
    else
      var begin :- Required(e, "begin", DecodeUint32);
      var end :- Required(e, "end", DecodeUint32);
      Success(DateRangeType(begin, end))
  }

  function DecodeReportMetadata(e: Element): (r: Result<ReportMetadataType, DecodeError>)
    ensures r.Success? <==>
      e.Struct? && RequiredDecodes(e, "org_name", DecodeString) && RequiredDecodes(e, "email", DecodeString) &&
      OptionalDecodes(e, "extra_contact_info", DecodeString) && RequiredDecodes(e, "report_id", DecodeString) &&
      RequiredDecodes(e, "date_range", DecodeDateRange) && OptionalListDecodes(e, "error", DecodeString)
    ensures r.Success? ==>
      HasRequired(e, "org_name", DecodeString, r.value.orgName) && HasRequired(e, "email", DecodeString, r.value.email) &&
      HasOptional(e, "extra_contact_info", DecodeString, r.value.extraContactInfo) &&
      HasRequired(e, "report_id", DecodeString, r.value.reportId) &&
      HasRequired(e, "date_range", DecodeDateRange, r.value.dateRange) &&
      HasOptionalList(e, "error", DecodeString, r.value.error)
  {
    if !e.Struct? then Failure(ExpectedStruct)
    else
      var orgName :- Required(e, "org_name", DecodeString);
      var email :- Required(e, "email", DecodeString);
      var extraContactInfo :- Optional(e, "extra_contact_info", DecodeString);
      var reportId :- Required(e, "report_id", DecodeString);
      var dateRange :- Required(e, "date_range", DecodeDateRange);
      var error :- OptionalList(e, "error", DecodeString);
      Success(ReportMetadataType(orgName, email, extraContactInfo, reportId, dateRange, error))
  }

  function DecodePolicyPublished(e: Element): (r: Result<PolicyPublishedType, DecodeError>)
    ensures r.Success? <==>
      e.Struct? && RequiredDecodes(e, "domain", DecodeString) &&
      OptionalDecodes(e, "adkim", DecodeAlignmentField) && OptionalDecodes(e, "aspf", DecodeAlignmentField) &&
      RequiredDecodes(e, "p", DecodeDispositionField) && OptionalDecodes(e, "sp", DecodeDispositionField) &&
      RequiredDecodes(e, "pct", DecodeUint8) && OptionalDecodes(e, "fo", DecodeString)
    ensures r.Success? ==>
      HasRequired(e, "domain", DecodeString, r.value.domain) &&
      HasOptional(e, "adkim", DecodeAlignmentField, r.value.adkim) &&
      HasOptional(e, "aspf", DecodeAlignmentField, r.value.aspf) &&
      HasRequired(e, "p", DecodeDispositionField, r.value.p) &&
      HasOptional(e, "sp", DecodeDispositionField, r.value.sp) &&
      HasRequired(e, "pct", DecodeUint8, r.value.pct) &&
      HasOptional(e, "fo", DecodeString, r.value.fo)
  {
    if !e.Struct? then Failure(ExpectedStruct)
    else
      var domain :- Required(e, "domain", DecodeString);
      var adkim :- Optional(e, "adkim", DecodeAlignmentField);
      var aspf :- Optional(e, "aspf", DecodeAlignmentField);
      var p :- Required(e, "p", DecodeDispositionField);
      var sp :- Optional(e, "sp", DecodeDispositionField);
      var pct :- Required(e, "pct", DecodeUint8);
      var fo :- Optional(e, "fo", DecodeString);
      Success(PolicyPublishedType(domain, adkim, aspf, p, sp, pct, fo))
  }

  function DecodePolicyOverrideReason(e: Element): (r: Result<PolicyOverrideReason, DecodeError>)
    ensures r.Success? <==>
      e.Struct? && RequiredDecodes(e, "type", DecodePolicyOverrideField) && OptionalDecodes(e, "comment", DecodeString)
    ensures r.Success? ==>
      HasRequired(e, "type", DecodePolicyOverrideField, r.value.kind) && HasOptional(e, "comment", DecodeString, r.value.comment)
  {
    if !e.Struct? then Failure(ExpectedStruct)
    else
      var kind :- Required(e, "type", DecodePolicyOverrideField);
      var comment :- Optional(e, "comment", DecodeString);
      Success(PolicyOverrideReason(kind, comment))
  }

  function DecodePolicyEvaluated(e: Element): (r: Result<PolicyEvaluatedType, DecodeError>)
    ensures r.Success? <==>
      e.Struct? && RequiredDecodes(e, "disposition", DecodeDispositionField) &&
      OptionalDecodes(e, "dkim", DecodeDmarcResultField) && OptionalDecodes(e, "spf", DecodeDmarcResultField) &&
      OptionalListDecodes(e, "reason", DecodePolicyOverrideReason)
    ensures r.Success? ==>
      HasRequired(e, "disposition", DecodeDispositionField, r.value.disposition) &&
      HasOptional(e, "dkim", DecodeDmarcResultField, r.value.dkim) &&
      HasOptional(e, "spf", DecodeDmarcResultField, r.value.spf) &&
      HasOptionalList(e, "reason", DecodePolicyOverrideReason, r.value.reason)
  {
    if !e.Struct? then Failure(ExpectedStruct)
    else
      var disposition :- Required(e, "disposition", DecodeDispositionField);
      var dkim :- Optional(e, "dkim", DecodeDmarcResultField);
      var spf :- Optional(e, "spf", DecodeDmarcResultField);
      var reason :- OptionalList(e, "reason", DecodePolicyOverrideReason);
      Success(PolicyEvaluatedType(disposition, dkim, spf, reason))
  }

  function DecodeRow(e: Element): (r: Result<RowType, DecodeError>)
    ensures r.Success? <==>
      e.Struct? && RequiredDecodes(e, "source_ip", DecodeIp) && RequiredDecodes(e, "count", DecodeUint32) &&
      RequiredDecodes(e, "policy_evaluated", DecodePolicyEvaluated)
    ensures r.Success? ==>
      HasRequired(e, "source_ip", DecodeIp, r.value.sourceIp) && HasRequired(e, "count", DecodeUint32, r.value.count) &&
      HasRequired(e, "policy_evaluated", DecodePolicyEvaluated, r.value.policyEvaluated)
  {
    if !e.Struct? then Failure(ExpectedStruct)
    else
      var sourceIp :- Required(e, "source_ip", DecodeIp);
      var count :- Required(e, "count", DecodeUint32);
      var policyEvaluated :- Required(e, "policy_evaluated", DecodePolicyEvaluated);
      Success(RowType(sourceIp, count, policyEvaluated))
  }

  function DecodeIdentifiers(e: Element): (r: Result<IdentifierType, DecodeError>)
    ensures r.Success? <==>
      e.Struct? && OptionalDecodes(e, "envelope_to", DecodeString) && OptionalDecodes(e, "envelope_from", DecodeString) &&
      RequiredDecodes(e, "header_from", DecodeString)
    ensures r.Success? ==>
      HasOptional(e, "envelope_to", DecodeString, r.value.envelopeTo) &&
      HasOptional(e, "envelope_from", DecodeString, r.value.envelopeFrom) &&
      HasRequired(e, "header_from", DecodeString, r.value.headerFrom)
  {
    if !e.Struct? then Failure(ExpectedStruct)
    else
      var envelopeTo :- Optional(e, "envelope_to", DecodeString);
      var envelopeFrom :- Optional(e, "envelope_from", DecodeString);
      var headerFrom :- Required(e, "header_from", DecodeString);
      Success(IdentifierType(envelopeTo, envelopeFrom, headerFrom))
  }

  function DecodeDkimAuthResult(e: Element): (r: Result<DkimAuthResultType, DecodeError>)
    ensures r.Success? <==>
      e.Struct? && RequiredDecodes(e, "domain", DecodeString) && OptionalDecodes(e, "selector", DecodeString) &&
      RequiredDecodes(e, "result", DecodeDkimResultField) && OptionalDecodes(e, "human_result", DecodeString)
    ensures r.Success? ==>
      HasRequired(e, "domain", DecodeString, r.value.domain) &&
      HasOptional(e, "selector", DecodeString, r.value.selector) &&
      HasRequired(e, "result", DecodeDkimResultField, r.value.result) &&
      HasOptional(e, "human_result", DecodeString, r.value.humanResult)
  {
    if !e.Struct? then Failure(ExpectedStruct)
    else
      var domain :- Required(e, "domain", DecodeString);
      var selector :- Optional(e, "selector", DecodeString);
      var result :- Required(e, "result", DecodeDkimResultField);
      var humanResult :- Optional(e, "human_result", DecodeString);
      Success(DkimAuthResultType(domain, selector, result, humanResult))
  }

  function DecodeSpfAuthResult(e: Element): (r: Result<SpfAuthResultType, DecodeError>)
    ensures r.Success? <==>
      e.Struct? && RequiredDecodes(e, "domain", DecodeString) && OptionalDecodes(e, "scope", DecodeSpfScopeField) &&
      RequiredDecodes(e, "result", DecodeSpfResultField)
    ensures r.Success? ==>
      HasRequired(e, "domain", DecodeString, r.value.domain) &&
      HasOptional(e, "scope", DecodeSpfScopeField, r.value.scope) &&
      HasRequired(e, "result", DecodeSpfResultField, r.value.result)
  {
    if !e.Struct? then Failure(ExpectedStruct)
    else
      var domain :- Required(e, "domain", DecodeString);
      var scope :- Optional(e, "scope", DecodeSpfScopeField);
      var result :- Required(e, "result", DecodeSpfResultField);
      Success(SpfAuthResultType(domain, scope, result))
  }

  function DecodeAuthResults(e: Element): (r: Result<AuthResultType, DecodeError>)
    ensures r.Success? <==>
      e.Struct? && OptionalListDecodes(e, "dkim", DecodeDkimAuthResult) && ListDecodes(e, "spf", DecodeSpfAuthResult)
    ensures r.Success? ==>
      HasOptionalList(e, "dkim", DecodeDkimAuthResult, r.value.dkim) && HasList(e, "spf", DecodeSpfAuthResult, r.value.spf)
  {
    if !e.Struct? then Failure(ExpectedStruct)
    else
      var dkim :- OptionalList(e, "dkim", DecodeDkimAuthResult);
      var spf :- RequiredList(e, "spf", DecodeSpfAuthResult);
      Success(AuthResultType(dkim, spf))
  }

  function DecodeRecord(e: Element): (r: Result<RecordType, DecodeError>)
    ensures r.Success? <==>
      e.Struct? && RequiredDecodes(e, "row", DecodeRow) && RequiredDecodes(e, "identifiers", DecodeIdentifiers) &&
      RequiredDecodes(e, "auth_results", DecodeAuthResults)
    ensures r.Success? ==>
      HasRequired(e, "row", DecodeRow, r.value.row) &&
      HasRequired(e, "identifiers", DecodeIdentifiers, r.value.identifiers) &&
      HasRequired(e, "auth_results", DecodeAuthResults, r.value.authResults)
  {
    if !e.Struct? then Failure(ExpectedStruct)
    else
      var row :- Required(e, "row", DecodeRow);
      var identifiers :- Required(e, "identifiers", DecodeIdentifiers);
      var authResults :- Required(e, "auth_results", DecodeAuthResults);
      Success(RecordType(row, identifiers, authResults))
  }

  /** The document element (`<feedback>` in RFC 7489): its own name is not checked. */
  function DecodeReport(e: Element): (r: Result<Report, DecodeError>)
    ensures r.Success? <==>
      e.Struct? && OptionalDecodes(e, "version", DecodeString) &&
      RequiredDecodes(e, "report_metadata", DecodeReportMetadata) &&
      RequiredDecodes(e, "policy_published", DecodePolicyPublished) &&
      ListDecodes(e, "record", DecodeRecord)
    ensures r.Success? ==>
      HasOptional(e, "version", DecodeString, r.value.version) &&
      HasRequired(e, "report_metadata", DecodeReportMetadata, r.value.reportMetadata) &&
      HasRequired(e, "policy_published", DecodePolicyPublished, r.value.policyPublished) &&
      HasList(e, "record", DecodeRecord, r.value.record)
  {
    if !e.Struct? then Failure(ExpectedStruct)
    else
      var version :- Optional(e, "version", DecodeString);
      var reportMetadata :- Required(e, "report_metadata", DecodeReportMetadata);
      var policyPublished :- Required(e, "policy_published", DecodePolicyPublished);
      var record :- RequiredList(e, "record", DecodeRecord);
      Success(Report(version, reportMetadata, policyPublished, record))
  }
}
