# dmarc-report-viewer — a Dafny model of report decoding and the update cycle

The viewer polls an IMAP mailbox, pulls the XML attachments out of the mails,
decodes each one into a DMARC aggregate report (RFC 7489, Appendix C) and
publishes the reports, the files that failed to decode, and summary
statistics to a shared application state that the web server reads.

This project models two parts of it and proves properties of both.

- **The report data model** (`src/dmarc_report.rs`), in `dmarc_report.dfy`,
  `report_decode.dfy`, `report_encode.dfy` and `report_properties.dfy`:
  - the `Report` record tree;
  - the seven closed enumerations and the one wire token each variant is
    read from;
  - the field rules that `derive(Deserialize)` gives each struct. A plain
    field needs exactly one element. An `Option` field may be absent. A `Vec`
    collects its elements in document order and needs at least one. An
    `Option<Vec>` may be absent.
  - the fixed-width numeric fields (`u8`, `u32`).

  Decoding works on an abstract element tree, because tokenising the XML
  text is left out. An encoder writes each report back out as such a tree,
  and a round-trip lemma shows that decoding the encoding gives back the
  report.
- **The background task** (`src/background.rs`), in `partition.dfy` and
  `background.dfy`:
  - `bg_update` is the imperative method `BgUpdate`. It has one loop over the
    mails, which collects the extracted files, and one loop over the files,
    which sorts them into reports and XML errors. It ends with one `Publish`
    call on the `AppState` class that replaces all six published fields
    together.
  - `start_bg_task` is the loop `RunBgTask`, run over a finite series of
    turns. Each turn is a cycle's inputs plus how the wait after the cycle
    ended.
  - Each method is proved against a specification function (`Cycle`,
    `Replay`). Lemmas prove what the source promises about those functions.

Collaborators the core calls but does not define are parameters of type
`Env`: mail extraction, the XML-to-report parser, lossy UTF-8 decoding and
`Summary::new`. What a cycle reads from the outside world is a `CycleInput`:
the mailbox fetch and the system clock, each of which may fail.

Two points where the data model is looser or stricter than one might expect:

- Enumeration decoding accepts exactly one token per variant: `r`/`s` for
  the alignment modes, `softfail`, `temperror`, `permerror`, and snake_case
  for the rest. A full word such as `relaxed`, or another case such as `R`,
  is rejected (`NoAlternativeSpellings`).
- Section 6.3 of RFC 7489 gives `pct` the range 0 to 100. The field is a plain
  `u8`, so nothing enforces that range: 255 decodes and 256 does not
  (`PctBoundedByTypeOnly`).

## Model

| member | source | states |
|---|---|---|
| DmarcReport.CodecIsInjective | src/dmarc_report.rs:23-29 | a token codec accepts one token per variant: distinct accepted tokens decode to distinct variants and distinct variants encode to distinct tokens |
| DmarcReport.DecodeAlignment | src/dmarc_report.rs:23-29 | accepts exactly the tokens "r" and "s", each decoding to the variant it is written for; every other text, the full words included, is rejected |
| DmarcReport.DecodeDisposition | src/dmarc_report.rs:31-40 | accepts exactly the snake_case tokens "none", "quarantine", "reject", each decoding to its own variant |
| DmarcReport.DecodeDmarcResult | src/dmarc_report.rs:53-58 | accepts exactly "pass" and "fail", each decoding to its own variant |
| DmarcReport.DecodePolicyOverride | src/dmarc_report.rs:60-69 | accepts exactly the six snake_case tokens ("sampled_out", …), each decoding to its own variant |
| DmarcReport.DecodeDkimResult | src/dmarc_report.rs:99-111 | accepts exactly the seven tokens, "temperror"/"permerror" for the renamed variants, each decoding to its own variant |
| DmarcReport.DecodeSpfScope | src/dmarc_report.rs:121-126 | accepts exactly "helo" and "mfrom", each decoding to its own variant |
| DmarcReport.DecodeSpfResult | src/dmarc_report.rs:128-141 | accepts exactly the seven tokens, "softfail"/"temperror"/"permerror" for the renamed variants, each decoding to its own variant |
| ReportProperties.AllEnumerationsAreTokenCodecs | src/dmarc_report.rs:23-141 | all seven enumerations are token codecs: every variant round-trips and every accepted token is the token of its variant |
| ReportProperties.NoAlternativeSpellings | src/dmarc_report.rs:23-29 | "relaxed", "strict", "R", "soft_fail", "temp_error", "temporary_error" are not accepted |
| ReportProperties.Uint32BoundedByType | src/dmarc_report.rs:8-10 | a `u32` field takes 4294967295 and rejects 4294967296 as an invalid number |
| ReportProperties.PctBoundedByTypeOnly | src/dmarc_report.rs:49 | `pct` accepts 100 and 255 and rejects 256: only the 8-bit type bounds it |
| ReportDecoding.ParseUnsigned | src/dmarc_report.rs:8-10 | text parses exactly when, after one optional `+`, it is a non-empty run of decimal digits whose value is below the bound of the width, and then to that value; out-of-range text is an error, not a wrapped value |
| ReportDecoding.ShowNat | src/dmarc_report.rs:8-10 | the decimal form of a number is a non-empty string of digits |
| ReportDecoding.ShowNatValue | src/dmarc_report.rs:8-10 | the digits of a number's decimal form denote that number |
| ReportDecoding.ParseShowRoundTrip | src/dmarc_report.rs:8-10 | every number below the bound parses back from its decimal form |
| ReportDecoding.ParseShowOutOfRange | src/dmarc_report.rs:8-10 | the decimal form of any number at or above the bound is rejected |
| ReportDecoding.DecodeUint8 | src/dmarc_report.rs:49 | a `u8` field decodes exactly when it is text that parses to a value below 256, and to that value; text that does not parse is an invalid number |
| ReportDecoding.DecodeUint32 | src/dmarc_report.rs:8-10 | a `u32` field decodes exactly when it is text that parses to a value below 2^32, and to that value; text that does not parse is an invalid number |
| ReportDecoding.DecodeIp | src/dmarc_report.rs:87 | the source address decodes exactly when it is text the address parser accepts, and to the parsed address; other text is an invalid address |
| ReportDecoding.DecodeToken | src/dmarc_report.rs:23-141 | an enumeration field decodes exactly when it is text that names a variant, and to that variant |
| ReportDecoding.DecodeAll | src/dmarc_report.rs:152-153 | a list decodes exactly when every element does; the values are the elements' values, in document order |
| ReportDecoding.Required | src/dmarc_report.rs:15-19 | a plain field decodes exactly when it has one element and that element decodes; with no element the error is a missing field |
| ReportDecoding.Optional | src/dmarc_report.rs:17 | an optional field is `None` when absent, otherwise the value of its one element |
| ReportDecoding.RequiredList | src/dmarc_report.rs:168 | a `Vec` field needs at least one element (missing field otherwise) and yields every element's value in order |
| ReportDecoding.OptionalList | src/dmarc_report.rs:20 | an `Option<Vec>` field is `None` when absent, otherwise every element's value in order |
| ReportDecoding.DecodeDateRange | src/dmarc_report.rs:7-11 | a date range decodes exactly when `begin` and `end` are each one valid `u32`, and holds them |
| ReportDecoding.DecodeReportMetadata | src/dmarc_report.rs:13-21 | metadata decodes exactly when the required fields are present once and every present field decodes; the result holds those values |
| ReportDecoding.DecodePolicyPublished | src/dmarc_report.rs:42-51 | the published policy decodes exactly when `domain`, `p`, `pct` are present once and every present field decodes |
| ReportDecoding.DecodePolicyOverrideReason | src/dmarc_report.rs:71-75 | an override reason needs its `type` element; the comment is optional |
| ReportDecoding.DecodePolicyEvaluated | src/dmarc_report.rs:77-83 | the evaluated policy needs a disposition; dkim, spf and the reasons are optional |
| ReportDecoding.DecodeRow | src/dmarc_report.rs:85-90 | a row needs an address, a `u32` count and the evaluated policy |
| ReportDecoding.DecodeIdentifiers | src/dmarc_report.rs:92-97 | identifiers need `header_from`; the envelope fields are optional |
| ReportDecoding.DecodeDkimAuthResult | src/dmarc_report.rs:113-119 | a DKIM result needs domain and result; selector and human result are optional |
| ReportDecoding.DecodeSpfAuthResult | src/dmarc_report.rs:143-148 | an SPF result needs domain and result; a missing scope decodes to `None` |
| ReportDecoding.DecodeAuthResults | src/dmarc_report.rs:150-154 | auth results need at least one SPF result; DKIM results are optional; both keep document order |
| ReportDecoding.DecodeRecord | src/dmarc_report.rs:156-161 | a record needs a row, identifiers and auth results, one each |
| ReportDecoding.DecodeReport | src/dmarc_report.rs:163-169 | a report decodes exactly when metadata and policy are present once, at least one record is present, and all of them decode; records keep document order |
| ReportEncoding.ReportMetadataElementDecodes | src/dmarc_report.rs:13-21 | an element carrying given metadata decodes to exactly that metadata |
| ReportEncoding.PolicyPublishedElementDecodes | src/dmarc_report.rs:42-51 | an element carrying a given published policy decodes to it |
| ReportEncoding.PolicyEvaluatedElementDecodes | src/dmarc_report.rs:77-83 | an element carrying a given evaluated policy, reasons included, decodes to it |
| ReportEncoding.RowElementDecodes | src/dmarc_report.rs:85-90 | an element carrying a given row decodes to it |
| ReportEncoding.AuthResultsElementDecodes | src/dmarc_report.rs:150-154 | an element carrying given auth results decodes to them, lists in order |
| ReportEncoding.RecordElementDecodes | src/dmarc_report.rs:156-161 | an element carrying a given record decodes to it |
| ReportEncoding.ReportElementDecodes | src/dmarc_report.rs:163-169 | an element carrying a given report decodes to exactly that report |
| ReportEncoding.EncodedRecordIsElement | src/dmarc_report.rs:156-161 | the encoding of a record carries that record |
| ReportEncoding.EncodedReportIsElement | src/dmarc_report.rs:163-169 | the encoding of a writable report carries that report |
| ReportEncoding.ReportRoundTrip | src/dmarc_report.rs:163-169 | every report a document can carry decodes back from its encoding |
| Partition.PartitionCounts | src/background.rs:53-66 | every parsed file becomes exactly one report or one XML error: the two counts add up to the file count |
| Partition.SuccessOrigins | src/background.rs:55-57 | the reports are the successes in file order: increasing file positions, the k-th holding the k-th report, no success missed |
| Partition.FailureOrigins | src/background.rs:58-64 | the XML errors are the failures in file order, in the same sense |
| Partition.ExactlyOneOrigin | src/background.rs:56-65 | each file position is the origin of a report or of an error, never both |
| Background.ExtractedConcat | src/background.rs:42-50 | the extracted files of a mailbox are those of its first part followed by those of the rest |
| Background.SkippedMailContributesNothing | src/background.rs:43-49 | a mail without a body, or whose extraction fails, adds no files and does not stop extraction of the others |
| Background.CycleSnapshotCoherent | src/background.rs:75-90 | a cycle's snapshot is coherent: reports plus errors equal the file count, and the summary is built from the same mails, count, reports and time |
| Background.CycleKeepsFileOrder | src/background.rs:53-66 | each report and each error comes from its own file, in file order; an error holds its file's parse error and lossy text |
| Background.AppState.Publish | src/background.rs:82-90 | the locked section replaces all six fields together with one cycle's values |
| Background.BgUpdate | src/background.rs:38-94 | a failed fetch or clock read leaves the state unchanged and reports the error; otherwise the state becomes the cycle's snapshot: the fetched mails, the file count, the summary, the reports, the timestamp and the errors |
| Background.LastSuccess | src/background.rs:24-28 | the index found is of a successful cycle after which every cycle failed; none means every cycle failed |
| Background.ReplayIsLastSuccess | src/background.rs:82-90 | after any series of cycles the state is the last successful cycle's snapshot, or the initial state if none succeeded; never a mix |
| Background.ReplayKeepsCoherent | src/background.rs:24-34 | a coherent state stays coherent across any series of cycles |
| Background.RunBgTask | src/background.rs:14-36 | the loop runs a cycle per turn whatever its outcome, stops right after the first turn whose wait ends with the stop signal, and otherwise runs every turn; the state is the replay of the cycles run |

## Left out

- Fetching mail over IMAP is an input of the cycle, `CycleInput.fetched`. Its connection, login and search are not modelled.
- Attachment extraction (`extract_xml_files`) is the function `Env.extract`. It takes the mail by `&mut` in the source, but the model treats it as pure, so any change it makes to the mail is not captured.
- The XML-to-report parser is `Env.parse`. Its formatted error text is opaque. `ReportDecoding` models its field rules, but not XML tokenisation, whitespace, namespaces or attributes.
- ReportDecoding.DecodeReport: when a document has several faults, the error reported follows field declaration order. The real parser may report them in document order. Success or failure and the decoded value agree.
- ReportDecoding.RequiredList: repeated elements that are not contiguous in the document are collected together. The real parser may reject them as a duplicate field.
- ReportEncoding.ReportRoundTrip: holds only for reports a document can express. A present but empty list and an empty record list cannot be written.
- ReportDecoding.DecodeIp: the textual syntax of IP addresses belongs to the standard library. It is the opaque function `ParseIp`.
- `String::from_utf8_lossy` is `Env.lossy`. `Summary::new` and the summary's contents are `Env.summarize` over an opaque `Summary`.
- The clock (`SystemTime::now`, `duration_since`) is an input that may fail, `CycleInput.clock`.
- Logging (`info!`, `warn!`, `error!`) is not modelled. The loop's per-cycle outcome is returned instead.
- Locking is not modelled: the mutex, a poisoned-lock panic, tokio task spawning, concurrent readers, and the sleep's duration. The locked block is the single method `AppState.Publish`.
- `AppState::default` is modelled only as the constructor's empty state. The state module is not part of this model.
- Background.RunBgTask: the unbounded loop is observed over a finite series of turns. When no stop arrives among them, the loop is still running.
- The configuration module is not modelled; only the check interval matters to the loop, as the length of the wait.
- The older update routine in `src/main.rs` is not part of this model.
