/** The background task: the update cycle that turns the mailbox into reports
    and parse errors and publishes them to the shared application state, and
    the loop that repeats it until it is told to stop. */
module Background {
  import opened Wrappers
  import opened DmarcReport
  import opened Partition

  newtype byte = x: int | 0 <= x < 0x100
  newtype uint64 = x: int | 0 <= x < 0x1_0000_0000_0000_0000

  /** One attachment's raw bytes, as extraction hands them over. */
  type XmlFile = seq<byte>

  /** The fields of a fetched mail other than its body; the mail module that
      defines them is not part of this model. */
  type MailHeaders(==)

  /** A fetched mail; only mails with a body are searched for XML files. */
  datatype Mail = Mail(headers: MailHeaders, body: Option<seq<byte>>)

  /** A file that did not parse: the formatted parse error and the file's
      bytes decoded as text, invalid sequences replaced. */
  datatype XmlError = XmlError(error: string, xml: string)

  /** The statistics computed from a cycle's results; their computation is
      not part of this model. */
  type Summary(==)

  /** The collaborators of one cycle, as pure functions:
      `extract` finds the XML attachments of a mail or fails,
      `parse` decodes one file into a report or fails with its formatted error,
      `lossy` decodes bytes as text with replacement characters,
      `summarize` builds the summary from (mail count, file count, reports, time). */
  datatype Env = Env(
    extract: Mail -> Result<seq<XmlFile>, string>,
    parse: XmlFile -> Result<Report, string>,
    lossy: XmlFile -> string,
    summarize: (nat, nat, seq<Report>, uint64) -> Summary)

  /** What one cycle observes from the outside world: the mailbox fetch and
      the system clock (seconds since the Unix epoch), either of which may fail. */
  datatype CycleInput = CycleInput(fetched: Result<seq<Mail>, string>, clock: Result<uint64, string>)

  /** Why a cycle gave up. */
  datatype CycleError = FetchFailed(cause: string) | ClockFailed(cause: string)

  /** What the task loop logs after a cycle. */
  type Outcome = Result<(), CycleError>

  /** The six fields of the application state that a cycle publishes. */
  datatype Snapshot = Snapshot(
    mails: seq<Mail>,
    xmlFiles: nat,
    summary: Summary,
    reports: seq<Report>,
    lastUpdate: uint64,
    xmlErrors: seq<XmlError>)

  // ---------------------------------------------------------------------
  // The cycle as a specification
  // ---------------------------------------------------------------------

  /** The files a mail contributes: none without a body, none when extraction fails. */
  function ExtractedFrom(env: Env, m: Mail): seq<XmlFile> {
    if m.body.None? then []
    else match env.extract(m)
      case Success(files) => files
      case Failure(_) => []
  }

  /** The files of all mails, mail by mail in mailbox order. */
  function Extracted(env: Env, mails: seq<Mail>): seq<XmlFile>
    decreases |mails|
  {
    if mails == [] then []
    else Extracted(env, mails[..|mails| - 1]) + ExtractedFrom(env, mails[|mails| - 1])
  }

  /** Extraction distributes over the mailbox: the files of the earlier mails
      come first, and each mail's files stay together. */
  lemma {:induction false} ExtractedConcat(env: Env, a: seq<Mail>, b: seq<Mail>)
    ensures Extracted(env, a + b) == Extracted(env, a) + Extracted(env, b)
    decreases |b|
  {
    if b == [] {
      assert a + b == a;
    } else {
      var n := |b| - 1;
      assert (a + b)[..|a + b| - 1] == a + b[..n];
      assert (a + b)[|a + b| - 1] == b[n];
      ExtractedConcat(env, a, b[..n]);
    }
  }

  /** A mail without a body, or whose extraction fails, is skipped and does
      not disturb the files of the mails around it. */
  lemma SkippedMailContributesNothing(env: Env, before: seq<Mail>, m: Mail, after: seq<Mail>)
    requires m.body.None? || env.extract(m).Failure?
    ensures Extracted(env, before + [m] + after) == Extracted(env, before) + Extracted(env, after)
  {
    var single := [m];
    assert single[..0] == [];
    assert Extracted(env, single) == [];
    ExtractedConcat(env, before, single);
    ExtractedConcat(env, before + single, after);
  }

  /** One file routed: a report, or an error carrying the file's own text. */
  function Route(env: Env, file: XmlFile): Result<Report, XmlError> {
    match env.parse(file)
    case Success(report) => Success(report)
    case Failure(err) => Failure(XmlError(err, env.lossy(file)))
  }

  function Routed(env: Env, files: seq<XmlFile>): seq<Result<Report, XmlError>> {
    seq(|files|, i requires 0 <= i < |files| => Route(env, files[i]))
  }

  /** What a successful cycle publishes, given the mails it fetched and the
      time it read. */
  function CycleSnapshot(env: Env, mails: seq<Mail>, timestamp: uint64): Snapshot {
    var files := Extracted(env, mails);
    var routed := Routed(env, files);
    var reports := Successes(routed);
    Snapshot(mails, |files|, env.summarize(|mails|, |files|, reports, timestamp),
             reports, timestamp, Failures(routed))
  }

  /** A whole cycle: a failed fetch or a failed clock read ends it with an
      error, otherwise it yields the snapshot to publish. */
  function Cycle(env: Env, input: CycleInput): Result<Snapshot, CycleError> {
    match input.fetched
    case Failure(cause) => Failure(FetchFailed(cause))
    case Success(mails) =>
      match input.clock
      case Failure(cause) => Failure(ClockFailed(cause))
      case Success(timestamp) => Success(CycleSnapshot(env, mails, timestamp))
  }

  /** The outcome a cycle reports: only whether it succeeded, and why not. */
  function OutcomeOf(env: Env, input: CycleInput): Outcome {
    match Cycle(env, input)
    case Success(_) => Success(())
    case Failure(e) => Failure(e)
  }

  /** A published state is coherent when its parts come from one cycle: every
      file is either a report or an error, and the summary is the one built
      from the published mails, file count, reports and time. */
  predicate Coherent(env: Env, s: Snapshot) {
    |s.reports| + |s.xmlErrors| == s.xmlFiles &&
    s.summary == env.summarize(|s.mails|, s.xmlFiles, s.reports, s.lastUpdate)
  }

  lemma CycleSnapshotCoherent(env: Env, mails: seq<Mail>, timestamp: uint64)
    ensures Coherent(env, CycleSnapshot(env, mails, timestamp))
  {
    PartitionCounts(Routed(env, Extracted(env, mails)));
  }

  /** Reports keep the order of their files, errors keep the order of theirs,
      and each comes from exactly one file: the k-th report is what its file
      parsed to, and the k-th error holds the parse error and the text of its
      own file. */
  lemma CycleKeepsFileOrder(env: Env, mails: seq<Mail>, timestamp: uint64)
    ensures var files := Extracted(env, mails);
            var s := CycleSnapshot(env, mails, timestamp);
            var ro := SuccessOrigins(Routed(env, files));
            var eo := FailureOrigins(Routed(env, files));
            |ro| == |s.reports| && |eo| == |s.xmlErrors| &&
            (forall k, l :: 0 <= k < l < |ro| ==> ro[k] < ro[l]) &&
            (forall k, l :: 0 <= k < l < |eo| ==> eo[k] < eo[l]) &&
            (forall k :: 0 <= k < |ro| ==> ro[k] < |files| && env.parse(files[ro[k]]) == Success(s.reports[k])) &&
            (forall k :: 0 <= k < |eo| ==>
               eo[k] < |files| &&
               env.parse(files[eo[k]]) == Failure(s.xmlErrors[k].error) &&
               s.xmlErrors[k].xml == env.lossy(files[eo[k]]))
  {
    var files := Extracted(env, mails);
    var routed := Routed(env, files);
    var s := CycleSnapshot(env, mails, timestamp);
    var ro, eo := SuccessOrigins(routed), FailureOrigins(routed);
    forall k | 0 <= k < |ro|
      ensures ro[k] < |files| && env.parse(files[ro[k]]) == Success(s.reports[k])
    {
      assert routed[ro[k]] == Route(env, files[ro[k]]);
    }
    forall k | 0 <= k < |eo|
      ensures eo[k] < |files| && env.parse(files[eo[k]]) == Failure(s.xmlErrors[k].error)
      ensures s.xmlErrors[k].xml == env.lossy(files[eo[k]])
    {
      assert routed[eo[k]] == Route(env, files[eo[k]]);
    }
  }

  // ---------------------------------------------------------------------
  // The shared state and the cycle as a method
  // ---------------------------------------------------------------------

  /** The application state shared with the web server. */
  class AppState {
    var mails: seq<Mail>
    var xmlFiles: nat
    var summary: Summary
    var reports: seq<Report>
    var lastUpdate: uint64
    var xmlErrors: seq<XmlError>

    /** The state before the first cycle: nothing fetched, nothing parsed. */
    constructor(emptySummary: Summary)
      ensures Current() == Snapshot([], 0, emptySummary, [], 0, [])
    {
      mails, xmlFiles, summary := [], 0, emptySummary;
      reports, lastUpdate, xmlErrors := [], 0, [];
    }

    function Current(): Snapshot
      reads this
    {
      Snapshot(mails, xmlFiles, summary, reports, lastUpdate, xmlErrors)
    }

    /** The locked section: all six fields replaced together. */
    method Publish(s: Snapshot)
      modifies this
      ensures Current() == s
    {
      mails := s.mails;
      xmlFiles := s.xmlFiles;
      summary := s.summary;
      reports := s.reports;
      lastUpdate := s.lastUpdate;
      xmlErrors := s.xmlErrors;
    }
  }

  /** One update cycle. A failed fetch or clock read leaves the state as it
      was; otherwise the state becomes the cycle's snapshot, all of it. */
  method BgUpdate(env: Env, input: CycleInput, state: AppState) returns (outcome: Outcome)
    modifies state
    ensures outcome == OutcomeOf(env, input)
    ensures Cycle(env, input).Failure? ==> unchanged(state)
    ensures state.Current() == Step(env, old(state.Current()), input)
  {
    if input.fetched.Failure? {
      return Failure(FetchFailed(input.fetched.error));
    }
    var mails := input.fetched.value;

    var xmlFiles: seq<XmlFile> := [];
    var i := 0;
    while i < |mails|
      invariant 0 <= i <= |mails|
      invariant xmlFiles == Extracted(env, mails[..i])
    {
      var mail := mails[i];
      if mail.body.Some? {
        match env.extract(mail) {
          case Success(files) => xmlFiles := xmlFiles + files;
          case Failure(_) =>
        }
      }
      assert mails[..i + 1][..i] == mails[..i];
      i := i + 1;
    }
    assert mails[..i] == mails;

    ghost var routed := Routed(env, xmlFiles);
    var xmlErrors: seq<XmlError> := [];
    var reports: seq<Report> := [];
    var j := 0;
    while j < |xmlFiles|
      invariant 0 <= j <= |xmlFiles|
      invariant reports == Successes(routed[..j])
      invariant xmlErrors == Failures(routed[..j])
    {
      assert routed[..j + 1][..j] == routed[..j];
      match env.parse(xmlFiles[j]) {
        case Success(report) =>
          reports := reports + [report];
        case Failure(err) =>
          xmlErrors := xmlErrors + [XmlError(err, env.lossy(xmlFiles[j]))];
      }
      j := j + 1;
    }
    assert routed[..j] == routed;

    if input.clock.Failure? {
      return Failure(ClockFailed(input.clock.error));
    }
    var timestamp := input.clock.value;
    var summary := env.summarize(|mails|, |xmlFiles|, reports, timestamp);
    state.Publish(Snapshot(mails, |xmlFiles|, summary, reports, timestamp, xmlErrors));
    return Success(());
  }

  // ---------------------------------------------------------------------
  // The task loop
  // ---------------------------------------------------------------------

  /** How the wait after a cycle ends: the interval elapsed, or a stop
      signal arrived. */
  datatype Wake = Tick | Stop

  /** One turn of the loop: what the cycle observes, then how the wait ends. */
  datatype Turn = Turn(input: CycleInput, wake: Wake)

  function Inputs(turns: seq<Turn>): seq<CycleInput> {
    seq(|turns|, i requires 0 <= i < |turns| => turns[i].input)
  }

  /** The state after one cycle: a failed cycle changes nothing, a successful
      one replaces everything. */
  function Step(env: Env, s: Snapshot, input: CycleInput): Snapshot {
    match Cycle(env, input)
    case Success(next) => next
    case Failure(_) => s
  }

  /** The state after a series of cycles. */
  function Replay(env: Env, s: Snapshot, inputs: seq<CycleInput>): Snapshot
    decreases |inputs|
  {
    if inputs == [] then s
    else Step(env, Replay(env, s, inputs[..|inputs| - 1]), inputs[|inputs| - 1])
  }

  /** The last cycle of the series that succeeded, if any. */
  function LastSuccess(env: Env, inputs: seq<CycleInput>): (last: Option<nat>)
    ensures last.Some? ==> last.value < |inputs| && Cycle(env, inputs[last.value]).Success? &&
                           forall l :: last.value < l < |inputs| ==> Cycle(env, inputs[l]).Failure?
    ensures last.None? ==> forall k :: 0 <= k < |inputs| ==> Cycle(env, inputs[k]).Failure?
    decreases |inputs|
  {
    if inputs == [] then Option.None
    else
      var n := |inputs| - 1;
      if Cycle(env, inputs[n]).Success? then Some(n)
      else
        var front := inputs[..n];
        assert forall k :: 0 <= k < n ==> front[k] == inputs[k];
        LastSuccess(env, front)
  }

  /** The published state is never a mix of cycles: it is the snapshot of the
      last successful cycle, or the initial state when every cycle failed. */
  lemma {:induction false} ReplayIsLastSuccess(env: Env, s: Snapshot, inputs: seq<CycleInput>)
    ensures Replay(env, s, inputs) ==
              match LastSuccess(env, inputs)
              case None => s
              case Some(k) => Cycle(env, inputs[k]).value
    decreases |inputs|
  {
    if inputs != [] {
      var n := |inputs| - 1;
      var front := inputs[..n];
      if Cycle(env, inputs[n]).Failure? {
        ReplayIsLastSuccess(env, s, front);
        var last := LastSuccess(env, front);
        if last.Some? {
          assert front[last.value] == inputs[last.value];
        }
      }
    }
  }

  /** Coherence survives any series of cycles. */
  lemma {:induction false} ReplayKeepsCoherent(env: Env, s: Snapshot, inputs: seq<CycleInput>)
    requires Coherent(env, s)
    ensures Coherent(env, Replay(env, s, inputs))
    decreases |inputs|
  {
    if inputs != [] {
      var n := |inputs| - 1;
      ReplayKeepsCoherent(env, s, inputs[..n]);
      var input := inputs[n];
      if Cycle(env, input).Success? {
        CycleSnapshotCoherent(env, input.fetched.value, input.clock.value);
      }
    }
  }

  /** The task loop over the turns it observes: it runs a cycle, logs its
      outcome whatever it is, waits, and stops only when the wait ends with
      the stop signal, that is between two cycles. When no stop arrives among
      the turns, all of them run and the loop is still going. */
  method RunBgTask(env: Env, state: AppState, turns: seq<Turn>)
    returns (cycles: nat, stopped: bool, outcomes: seq<Outcome>)
    modifies state
    ensures cycles <= |turns|
    ensures forall k :: 0 <= k < cycles - 1 ==> turns[k].wake == Tick
    ensures stopped ==> 1 <= cycles && turns[cycles - 1].wake == Stop
    ensures !stopped ==> cycles == |turns| && forall k :: 0 <= k < |turns| ==> turns[k].wake == Tick
    ensures |outcomes| == cycles
    ensures forall k :: 0 <= k < cycles ==> outcomes[k] == OutcomeOf(env, turns[k].input)
    ensures state.Current() == Replay(env, old(state.Current()), Inputs(turns)[..cycles])
  {
    cycles, stopped, outcomes := 0, false, [];
    ghost var inputs := Inputs(turns);
    while cycles < |turns| && !stopped
      invariant cycles <= |turns|
      invariant forall k :: 0 <= k < cycles - 1 ==> turns[k].wake == Tick
      invariant stopped ==> 1 <= cycles && turns[cycles - 1].wake == Stop
      invariant !stopped ==> forall k :: 0 <= k < cycles ==> turns[k].wake == Tick
      invariant |outcomes| == cycles
      invariant forall k :: 0 <= k < cycles ==> outcomes[k] == OutcomeOf(env, turns[k].input)
      invariant state.Current() == Replay(env, old(state.Current()), inputs[..cycles])
      decreases |turns| - cycles
    {
      var turn := turns[cycles];
      var outcome := BgUpdate(env, turn.input, state);
      outcomes := outcomes + [outcome];
      assert inputs[..cycles + 1][..cycles] == inputs[..cycles];
      stopped := turn.wake == Stop;
      cycles := cycles + 1;
    }
  }
}
