/** The DMARC aggregate-report data model of RFC 7489 Appendix C as the
    viewer declares it: the `Report` record tree, and the seven closed
    enumerations with the one wire token each variant is decoded from. */
module DmarcReport {
  import opened Wrappers

  /** Rust's fixed-width unsigned integers, as far as the report uses them. */
  newtype uint8 = x: int | 0 <= x < 0x100
  newtype uint32 = x: int | 0 <= x < 0x1_0000_0000

  /** `std::net::IpAddr`; its text syntax belongs to the standard library and
      is not part of this model, so addresses are opaque values. */
  type IpAddr(==)

  // ---------------------------------------------------------------------
  // Enumerations and their wire tokens
  // ---------------------------------------------------------------------

  /** A token codec: every variant encodes to a token that decodes back to
      it, and a token that decodes at all is the encoding of its variant.
      Together: one token per variant, and no other spelling is accepted. */
  ghost predicate IsTokenCodec<T(!new)>(encode: T -> string, decode: string -> Option<T>) {
    (forall x :: decode(encode(x)) == Some(x)) &&
    (forall t :: decode(t).Some? ==> encode(decode(t).value) == t)
  }

  /** What a token codec gives: decoding is injective on the tokens it
      accepts, and encoding is injective on variants. */
  lemma CodecIsInjective<T(!new)>(encode: T -> string, decode: string -> Option<T>)
    requires IsTokenCodec(encode, decode)
    ensures forall t, u :: decode(t).Some? && decode(t) == decode(u) ==> t == u
    ensures forall x, y :: encode(x) == encode(y) ==> x == y
  {
    forall t, u | decode(t).Some? && decode(t) == decode(u)
      ensures t == u
    {
      calc {
        t;
        encode(decode(t).value);
        encode(decode(u).value);
        u;
      }
    }
    forall x, y | encode(x) == encode(y)
      ensures x == y
    {
      assert Some(x) == decode(encode(x)) == decode(encode(y)) == Some(y);
    }
  }

  /** `AlignmentType`: renamed one by one to "r" and "s". */
  datatype AlignmentType = Relaxed | Strict

  function EncodeAlignment(a: AlignmentType): string {
    match a
    case Relaxed => "r"
    case Strict => "s"
  }

  /** Reads back exactly the tokens EncodeAlignment writes, each to its own variant. */
  function DecodeAlignment(token: string): (r: Option<AlignmentType>)
    ensures forall x :: EncodeAlignment(x) == token ==> r == Some(x)
    ensures r.Some? ==> EncodeAlignment(r.value) == token
  {
    if token == "r" then Some(Relaxed)
    else if token == "s" then Some(Strict)
    else Option.None
  }

  lemma AlignmentCodec()
    ensures IsTokenCodec(EncodeAlignment, DecodeAlignment)
  {}

  /** `DispositionType`: `rename_all = "snake_case"`. */
  datatype DispositionType = None | Quarantine | Reject

  function EncodeDisposition(d: DispositionType): string {
    match d
    case None => "none"
    case Quarantine => "quarantine"
    case Reject => "reject"
  }

  /** Reads back exactly the tokens EncodeDisposition writes, each to its own variant. */
  function DecodeDisposition(token: string): (r: Option<DispositionType>)
    ensures forall x :: EncodeDisposition(x) == token ==> r == Some(x)
    ensures r.Some? ==> EncodeDisposition(r.value) == token
  {
    if token == "none" then Some(DispositionType.None)
    else if token == "quarantine" then Some(Quarantine)
    else if token == "reject" then Some(Reject)
    else Option.None
  }

  lemma DispositionCodec()
    ensures IsTokenCodec(EncodeDisposition, DecodeDisposition)
  {}

  /** `DMARCResultType`, the policy-evaluated outcome: `rename_all = "snake_case"`. */
  datatype DmarcResultType = Pass | Fail

  function EncodeDmarcResult(r: DmarcResultType): string {
    match r
    case Pass => "pass"
    case Fail => "fail"
  }

  /** Reads back exactly the tokens EncodeDmarcResult writes, each to its own variant. */
  function DecodeDmarcResult(token: string): (r: Option<DmarcResultType>)
    ensures forall x :: EncodeDmarcResult(x) == token ==> r == Some(x)
    ensures r.Some? ==> EncodeDmarcResult(r.value) == token
  {
    if token == "pass" then Some(DmarcResultType.Pass)
    else if token == "fail" then Some(DmarcResultType.Fail)
    else Option.None
  }

  lemma DmarcResultCodec()
    ensures IsTokenCodec(EncodeDmarcResult, DecodeDmarcResult)
  {}

  /** `PolicyOverrideType`: `rename_all = "snake_case"`. */
  datatype PolicyOverrideType = Forwarded | SampledOut | TrustedForwarder | MailingList | LocalPolicy | Other

  function EncodePolicyOverride(p: PolicyOverrideType): string {
    match p
    case Forwarded => "forwarded"
    case SampledOut => "sampled_out"
    case TrustedForwarder => "trusted_forwarder"
    case MailingList => "mailing_list"
    case LocalPolicy => "local_policy"
    case Other => "other"
  }

  /** Reads back exactly the tokens EncodePolicyOverride writes, each to its own variant. */
  function DecodePolicyOverride(token: string): (r: Option<PolicyOverrideType>)
    ensures forall x :: EncodePolicyOverride(x) == token ==> r == Some(x)
    ensures r.Some? ==> EncodePolicyOverride(r.value) == token
  {
    if token == "forwarded" then Some(Forwarded)
    else if token == "sampled_out" then Some(SampledOut)
    else if token == "trusted_forwarder" then Some(TrustedForwarder)
    else if token == "mailing_list" then Some(MailingList)
    else if token == "local_policy" then Some(LocalPolicy)
    else if token == "other" then Some(Other)
    else Option.None
  }

  lemma PolicyOverrideCodec()
    ensures IsTokenCodec(EncodePolicyOverride, DecodePolicyOverride)
  {}

  /** `DKIMResultType`: snake_case, except the two error variants, which are
      renamed to "temperror" and "permerror". */
  datatype DkimResultType = None | Pass | Fail | Policy | Neutral | TemporaryError | PermanentError

  function EncodeDkimResult(r: DkimResultType): string {
    match r
    case None => "none"
    case Pass => "pass"
    case Fail => "fail"
    case Policy => "policy"
    case Neutral => "neutral"
    case TemporaryError => "temperror"
    case PermanentError => "permerror"
  }

  /** Reads back exactly the tokens EncodeDkimResult writes, each to its own variant. */
  function DecodeDkimResult(token: string): (r: Option<DkimResultType>)
    ensures forall x :: EncodeDkimResult(x) == token ==> r == Some(x)
    ensures r.Some? ==> EncodeDkimResult(r.value) == token
  {
    if token == "none" then Some(DkimResultType.None)
    else if token == "pass" then Some(DkimResultType.Pass)
    else if token == "fail" then Some(DkimResultType.Fail)
    else if token == "policy" then Some(Policy)
    else if token == "neutral" then Some(DkimResultType.Neutral)
    else if token == "temperror" then Some(DkimResultType.TemporaryError)
    else if token == "permerror" then Some(DkimResultType.PermanentError)
    else Option.None
  }

  lemma DkimResultCodec()
    ensures IsTokenCodec(EncodeDkimResult, DecodeDkimResult)
  {}

  /** `SPFDomainScope`: `rename_all = "snake_case"`. */
  datatype SpfDomainScope = Helo | Mfrom

  function EncodeSpfScope(s: SpfDomainScope): string {
    match s
    case Helo => "helo"
    case Mfrom => "mfrom"
  }

  /** Reads back exactly the tokens EncodeSpfScope writes, each to its own variant. */
  function DecodeSpfScope(token: string): (r: Option<SpfDomainScope>)
    ensures forall x :: EncodeSpfScope(x) == token ==> r == Some(x)
    ensures r.Some? ==> EncodeSpfScope(r.value) == token
  {
    if token == "helo" then Some(Helo)
    else if token == "mfrom" then Some(Mfrom)
    else Option.None
  }

  lemma SpfScopeCodec()
    ensures IsTokenCodec(EncodeSpfScope, DecodeSpfScope)
  {}

  /** `SPFResultType`: snake_case, except `SoftFail` ("softfail", not
      "soft_fail") and the two error variants. */
  datatype SpfResultType = None | Neutral | Pass | Fail | SoftFail | TemporaryError | PermanentError

  function EncodeSpfResult(r: SpfResultType): string {
    match r
    case None => "none"
    case Neutral => "neutral"
    case Pass => "pass"
    case Fail => "fail"
    case SoftFail => "softfail"
    case TemporaryError => "temperror"
    case PermanentError => "permerror"
  }

  /** Reads back exactly the tokens EncodeSpfResult writes, each to its own variant. */
  function DecodeSpfResult(token: string): (r: Option<SpfResultType>)
    ensures forall x :: EncodeSpfResult(x) == token ==> r == Some(x)
    ensures r.Some? ==> EncodeSpfResult(r.value) == token
  {
    if token == "none" then Some(SpfResultType.None)
    else if token == "neutral" then Some(SpfResultType.Neutral)
    else if token == "pass" then Some(SpfResultType.Pass)
    else if token == "fail" then Some(SpfResultType.Fail)
    else if token == "softfail" then Some(SoftFail)
    else if token == "temperror" then Some(SpfResultType.TemporaryError)
    else if token == "permerror" then Some(SpfResultType.PermanentError)
    else Option.None
  }

  lemma SpfResultCodec()
    ensures IsTokenCodec(EncodeSpfResult, DecodeSpfResult)
  {}

  // ---------------------------------------------------------------------
  // The record tree
  // ---------------------------------------------------------------------

  datatype DateRangeType = DateRangeType(begin: uint32, end: uint32)

  datatype ReportMetadataType = ReportMetadataType(
    orgName: string,
    email: string,
    extraContactInfo: Option<string>,
    reportId: string,
    dateRange: DateRangeType,
    error: Option<seq<string>>)

  /** `pct` is a plain `u8`: the type bounds it by 255, nothing bounds it by 100. */
  datatype PolicyPublishedType = PolicyPublishedType(
    domain: string,
    adkim: Option<AlignmentType>,
    aspf: Option<AlignmentType>,
    p: DispositionType,
    sp: Option<DispositionType>,
    pct: uint8,
    fo: Option<string>)

  /** The Rust field is `r#type`; `type` is a keyword in Dafny as well. */
  datatype PolicyOverrideReason = PolicyOverrideReason(kind: PolicyOverrideType, comment: Option<string>)

  datatype PolicyEvaluatedType = PolicyEvaluatedType(
    disposition: DispositionType,
    dkim: Option<DmarcResultType>,
    spf: Option<DmarcResultType>,
    reason: Option<seq<PolicyOverrideReason>>)

  datatype RowType = RowType(sourceIp: IpAddr, count: uint32, policyEvaluated: PolicyEvaluatedType)

  datatype IdentifierType = IdentifierType(
    envelopeTo: Option<string>,
    envelopeFrom: Option<string>,
    headerFrom: string)

  datatype DkimAuthResultType = DkimAuthResultType(
    domain: string,
    selector: Option<string>,
    result: DkimResultType,
    humanResult: Option<string>)

  datatype SpfAuthResultType = SpfAuthResultType(domain: string, scope: Option<SpfDomainScope>, result: SpfResultType)

  datatype AuthResultType = AuthResultType(dkim: Option<seq<DkimAuthResultType>>, spf: seq<SpfAuthResultType>)

  datatype RecordType = RecordType(row: RowType, identifiers: IdentifierType, authResults: AuthResultType)

  datatype Report = Report(
    version: Option<string>,
    reportMetadata: ReportMetadataType,
    policyPublished: PolicyPublishedType,
    record: seq<RecordType>)
}
