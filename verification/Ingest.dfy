/** The ingest pipeline: one adapter event stream becomes one outcome, one job row and at most one new loot. */
module Ingest {
  import opened Wrappers

  type Id = string

  /** What awaiting a call gives: its value, or the message of what it threw. */
  type Awaited<+T> = Result<T, string>

  /** A staged file: what `stat`, the format sniffer and the hasher say about it. */
  datatype File = File(size: Option<nat>, sniffed: Awaited<Option<string>>, extension: string, content: string,
    hashable: bool)

  datatype Item = Item(source: string, itemId: string, files: seq<File>)

  datatype Event =
    | Progress
    | RateLimited(attempt: int)
    | AuthRequired(reason: string)
    | AdapterFailed(reason: string, message: string)
    | Completed(item: Item)

  /** What the adapter's iterator does next; when the sequence is over it ends. */
  datatype Signal = Yields(event: Event) | Throws(message: string)

  datatype Details = Message(text: string) | TooManyAttempts | NoDecision | NoCollection | NoStashRoot | NoFiles

  datatype Outcome =
    | Placed(loot: Id, deduped: bool)
    | Quarantined(item: Id, why: string)
    | Failed(reason: string, details: Details)
    | PausedAuth(reason: string)

  datatype Status = Queued | Running | Fetching | Placing | Done | InQuarantine | HasFailed | Paused

  datatype Row = Row(status: Status, loot: Option<Id>, quarantineItem: Option<Id>, failureReason: Option<string>,
                     failureDetails: Option<Details>, attempt: int)

  datatype LootFile = LootFile(loot: Id, hash: string)
  datatype SourceRecord = SourceRecord(loot: Id, source: string, itemId: string)
  datatype Library = Library(files: seq<LootFile>, records: seq<SourceRecord>)

  datatype Config = Config(maxFileSize: nat, acceptedFormats: set<string>, maxAttempts: int)

  datatype Placement = Creates(loot: Id) | Refuses(error: string) | Breaks(message: string)

  /** Everything outside the pipeline that decides how a run goes: each call that may throw, what the placement helper
      does, whether the collection and its root exist, and which row writes are lost. `close` is the adapter's own
      clean-up, which runs when the event loop is left before the adapter has ended. */
  datatype Env = Env(mkdir: Awaited<()>, close: Awaited<()>, hashLookup: Awaited<()>, sourceLookup: Awaited<()>,
                     collection: Awaited<bool>, stashRoot: Awaited<bool>, placement: Placement,
                     quarantineId: Option<Id>, recordInsertFails: bool, lostWrites: set<nat>)

  const ZERO_HASH: string := Zeros(64)

  function Zeros(n: nat): (s: string)
    ensures |s| == n && forall i :: 0 <= i < n ==> s[i] == '0'
  {
    if n == 0 then "" else Zeros(n - 1) + "0"
  }

  // ---------------------------------------------------------------- reference definition

  /** The pipeline stops reading at this signal. */
  predicate Decisive(s: Signal, cfg: Config) {
    s.Throws? || s.event.AuthRequired? || s.event.AdapterFailed? || s.event.Completed? ||
    (s.event.RateLimited? && s.event.attempt > cfg.maxAttempts)
  }

  function FirstDecisive(stream: seq<Signal>, cfg: Config): (i: nat)
    ensures i <= |stream|
    ensures forall k :: 0 <= k < i ==> !Decisive(stream[k], cfg)
    ensures i < |stream| ==> Decisive(stream[i], cfg)
  {
    if stream == [] || Decisive(stream[0], cfg) then 0 else 1 + FirstDecisive(stream[1..], cfg)
  }

  function FormatOf(f: File): string {
    if f.sniffed.Success? && f.sniffed.value.Some? then f.sniffed.value.value else f.extension
  }

  predicate Acceptable(f: File, cfg: Config) {
    && f.size.Some? && f.size.value <= cfg.maxFileSize && f.sniffed.Success?
    && FormatOf(f) != "" && FormatOf(f) in cfg.acceptedFormats
  }

  function FirstBad(files: seq<File>, cfg: Config): (i: nat)
    ensures i <= |files|
    ensures forall k :: 0 <= k < i ==> Acceptable(files[k], cfg)
    ensures i < |files| ==> !Acceptable(files[i], cfg)
  {
    if files == [] || !Acceptable(files[0], cfg) then 0 else 1 + FirstBad(files[1..], cfg)
  }

  function UnknownFailure(text: string): Outcome {
    Failed("unknown", Message(text))
  }

  function QuarantineFor(env: Env, why: string): Outcome {
    Quarantined(if env.quarantineId.Some? && env.collection == Success(true) then env.quarantineId.value else "", why)
  }

  function BadFileOutcome(f: File, cfg: Config, env: Env): Outcome
    requires !Acceptable(f, cfg)
  {
    if f.size.None? then QuarantineFor(env, "validation-failed")
    else if f.size.value > cfg.maxFileSize then QuarantineFor(env, "size-exceeds-limit")
    else if f.sniffed.Failure? then UnknownFailure(f.sniffed.error)
    else QuarantineFor(env, "format-unsupported")
  }

  function PrimaryHash(item: Item): string
    requires item.files != []
  {
    if item.files[0].hashable then item.files[0].content else ZERO_HASH
  }

  predicate HasHash(lib: Library, hash: string) {
    exists i :: 0 <= i < |lib.files| && lib.files[i].hash == hash
  }

  predicate HasSource(lib: Library, item: Item) {
    exists i :: 0 <= i < |lib.records| && lib.records[i].source == item.source && lib.records[i].itemId == item.itemId
  }

  function LootOfHash(lib: Library, hash: string): Id
    requires HasHash(lib, hash)
  {
    FindHash(lib.files, hash)
  }

  function FindHash(files: seq<LootFile>, hash: string): (loot: Id)
    requires exists i :: 0 <= i < |files| && files[i].hash == hash
    ensures LootFile(loot, hash) in files
  {
    if files[0].hash == hash then files[0].loot else FindHash(files[1..], hash)
  }

  function LootOfSource(lib: Library, item: Item): Id
    requires HasSource(lib, item)
  {
    FindSource(lib.records, item)
  }

  function FindSource(records: seq<SourceRecord>, item: Item): (loot: Id)
    requires exists i :: 0 <= i < |records| && records[i].source == item.source && records[i].itemId == item.itemId
    ensures SourceRecord(loot, item.source, item.itemId) in records
  {
    if records[0].source == item.source && records[0].itemId == item.itemId then records[0].loot
    else FindSource(records[1..], item)
  }

  /** What becomes of an item whose files are all acceptable. */
  function PlacementOutcome(item: Item, lib: Library, env: Env): Outcome
    requires item.files != []
  {
    if env.hashLookup.Failure? then UnknownFailure(env.hashLookup.error)
    else if HasHash(lib, PrimaryHash(item)) then Placed(LootOfHash(lib, PrimaryHash(item)), true)
    else if env.sourceLookup.Failure? then UnknownFailure(env.sourceLookup.error)
    else if HasSource(lib, item) then Placed(LootOfSource(lib, item), true)
    else if env.collection.Failure? then UnknownFailure(env.collection.error)
    else if !env.collection.value then Failed("unknown", NoCollection)
    else if env.stashRoot.Failure? then UnknownFailure(env.stashRoot.error)
    else if !env.stashRoot.value then Failed("unknown", NoStashRoot)
    else match env.placement
      case Creates(loot) => Placed(loot, false)
      case Refuses(_) => QuarantineFor(env, "placement-failed")
      case Breaks(message) => UnknownFailure(message)
  }

  function ItemOutcome(item: Item, cfg: Config, lib: Library, env: Env): Outcome {
    if item.files == [] then QuarantineFor(env, "validation-failed")
    else
      var bad := FirstBad(item.files, cfg);
      if bad < |item.files| then BadFileOutcome(item.files[bad], cfg, env) else PlacementOutcome(item, lib, env)
  }

  function SignalOutcome(s: Signal, cfg: Config, lib: Library, env: Env): Outcome
    requires Decisive(s, cfg)
  {
    if s.Throws? then UnknownFailure(s.message)
    else if env.close.Failure? then UnknownFailure(env.close.error)
    else match s.event
      case RateLimited(_) => Failed("rate-limit-exhausted", TooManyAttempts)
      case AuthRequired(reason) => PausedAuth(reason)
      case AdapterFailed(reason, message) => Failed(reason, Message(message))
      case Completed(item) => ItemOutcome(item, cfg, lib, env)
  }

  /** The signal at which the pipeline stops reading, if there is one. */
  function DecisionOf(stream: seq<Signal>, cfg: Config): (s: Option<Signal>)
    ensures s.Some? ==> Decisive(s.value, cfg)
  {
    var i := FirstDecisive(stream, cfg);
    if i < |stream| then Some(stream[i]) else None
  }

  /** The one outcome of a run. */
  function OutcomeOf(stream: seq<Signal>, cfg: Config, lib: Library, env: Env): Outcome {
    if env.mkdir.Failure? then UnknownFailure(env.mkdir.error)
    else
      var s := DecisionOf(stream, cfg);
      if s.None? then Failed("unknown", NoDecision) else SignalOutcome(s.value, cfg, lib, env)
  }

  /** The item a run completes with, if it gets that far. */
  function ItemOf(stream: seq<Signal>, cfg: Config, env: Env): Option<Item> {
    var i := FirstDecisive(stream, cfg);
    if env.mkdir.Success? && env.close.Success? && i < |stream| && stream[i].Yields? &&
      stream[i].event.Completed? then Some(stream[i].event.item)
    else None
  }

  /** The adapter's decisive signal asks for authentication, and nothing throws around it. */
  predicate Pauses(stream: seq<Signal>, cfg: Config, env: Env) {
    var i := FirstDecisive(stream, cfg);
    env.mkdir.Success? && env.close.Success? && i < |stream| && stream[i].Yields? && stream[i].event.AuthRequired?
  }

  predicate AllAcceptable(files: seq<File>, cfg: Config) {
    files != [] && forall f :: f in files ==> Acceptable(f, cfg)
  }

  /** The item finds a loot that has its hash or its source, or gets a new one. */
  predicate FindsLoot(item: Item, lib: Library, env: Env)
    requires item.files != []
  {
    env.hashLookup.Success? &&
    (HasHash(lib, PrimaryHash(item)) ||
     (env.sourceLookup.Success? &&
      (HasSource(lib, item) || (env.collection == Success(true) && env.stashRoot == Success(true) &&
        env.placement.Creates?))))
  }

  /** The stream completes with acceptable files that end up in a loot. */
  predicate Places(stream: seq<Signal>, cfg: Config, lib: Library, env: Env) {
    var item := ItemOf(stream, cfg, env);
    item.Some? && AllAcceptable(item.value.files, cfg) && FindsLoot(item.value, lib, env)
  }

  /** The attribution rows after one more insert; a repeated row violates the unique index and is ignored. */
  function Recorded(lib: Library, loot: Id, item: Item, env: Env): Library {
    var r := SourceRecord(loot, item.source, item.itemId);
    if env.recordInsertFails || r in lib.records then lib else lib.(records := lib.records + [r])
  }

  function LootFiles(loot: Id, files: seq<File>): (r: seq<LootFile>)
    ensures |r| == |files| && forall i :: 0 <= i < |files| ==> r[i] == LootFile(loot, files[i].content)
  {
    if files == [] then [] else [LootFile(loot, files[0].content)] + LootFiles(loot, files[1..])
  }

  /** The placement helper stores the content hash of every file of the new loot. */
  function Stocked(lib: Library, loot: Id, files: seq<File>): Library {
    lib.(files := lib.files + LootFiles(loot, files))
  }

  function LibraryAfter(lib: Library, outcome: Outcome, item: Option<Item>, env: Env): Library {
    if outcome.Placed? && item.Some? then
      Recorded(if outcome.deduped then lib else Stocked(lib, outcome.loot, item.value.files), outcome.loot,
        item.value, env)
    else lib
  }

  function StatusOf(outcome: Outcome): Status {
    match outcome
    case Placed(_, _) => Done
    case Quarantined(_, _) => InQuarantine
    case Failed(_, _) => HasFailed
    case PausedAuth(_) => Paused
  }

  /** Only a placement changes the row's loot. */
  predicate SameLoot(outcome: Outcome, before: Row, after: Row) {
    !outcome.Placed? ==> after.loot == before.loot
  }

  /** Only a failure and a pause change its failure reason. */
  predicate SameReason(outcome: Outcome, before: Row, after: Row) {
    !outcome.Failed? && !outcome.PausedAuth? ==> after.failureReason == before.failureReason
  }

  /** The schema's comment: no failure reason unless the job has failed or is in quarantine. */
  predicate ReasonAsDocumented(row: Row) {
    row.failureReason.Some? ==> row.status in {HasFailed, InQuarantine}
  }

  /** The row tells the same story as the outcome. */
  predicate Agrees(outcome: Outcome, row: Row) {
    match outcome
    case Placed(loot, _) => row.status == Done && row.loot == Some(loot)
    case Quarantined(item, _) => row.status == InQuarantine && (item != "" ==> row.quarantineItem == Some(item))
    case Failed(reason, details) =>
      row.status == HasFailed && row.failureReason == Some(reason) && row.failureDetails == Some(details)
    case PausedAuth(reason) => row.status == Paused && row.failureReason == Some(reason)
  }

  // ---------------------------------------------------------------- what a run answers, case by case

  /** How a run ends: its answer, the job row and whether the last write reached it, the library before and after. */
  datatype Ending = Ending(outcome: Outcome, row: Row, stored: bool, before: Library, after: Library)

  /** The job has failed, and the library is as it was. */
  predicate FailsWith(e: Ending, reason: string, details: Details) {
    && e.outcome == Failed(reason, details) && e.after == e.before
    && (e.stored ==>
         e.row.status == HasFailed && e.row.failureReason == Some(reason) && e.row.failureDetails == Some(details))
  }

  predicate PausesWith(e: Ending, reason: string) {
    && e.outcome == PausedAuth(reason) && e.after == e.before
    && (e.stored ==> e.row.status == Paused && e.row.failureReason == Some(reason))
  }

  /** The job is in quarantine, with an item if the collection exists and the insert succeeds. */
  predicate QuarantinesWith(e: Ending, why: string, env: Env) {
    var made := env.collection == Success(true) && env.quarantineId.Some?;
    && e.outcome == Quarantined(if made then env.quarantineId.value else "", why) && e.after == e.before
    && (e.stored ==> e.row.status == InQuarantine)
    && (e.stored && made && env.quarantineId.value != "" ==> e.row.quarantineItem == env.quarantineId)
  }

  /** The job is done. A new loot brings one entry for each file; either way it gets the item's attribution, once. */
  predicate PlacesAt(e: Ending, loot: Id, deduped: bool, item: Item, env: Env) {
    var r := SourceRecord(loot, item.source, item.itemId);
    && e.outcome == Placed(loot, deduped)
    && (e.stored ==> e.row.status == Done && e.row.loot == Some(loot))
    && e.after.records == (if env.recordInsertFails || r in e.before.records then e.before.records
                           else e.before.records + [r])
    && |e.after.files| == |e.before.files| + (if deduped then 0 else |item.files|)
    && e.after.files[..|e.before.files|] == e.before.files
    && (!deduped ==> forall k :: 0 <= k < |item.files| ==>
         e.after.files[|e.before.files| + k] == LootFile(loot, item.files[k].content))
  }

  /** Progress, or a rate limit within the maximum. */
  predicate Tolerated(s: Signal, cfg: Config) {
    s.Yields? && (s.event.Progress? || (s.event.RateLimited? && s.event.attempt <= cfg.maxAttempts))
  }

  predicate AllTolerated(stream: seq<Signal>, n: nat, cfg: Config)
    requires n <= |stream|
  {
    forall k :: 0 <= k < n ==> Tolerated(stream[k], cfg)
  }

  predicate FirstUntolerated(stream: seq<Signal>, i: int, cfg: Config) {
    0 <= i < |stream| && AllTolerated(stream, i, cfg) && !Tolerated(stream[i], cfg)
  }

  /** The attempt of the last rate limit among the first n signals. */
  function LastAttempt(stream: seq<Signal>, n: nat, before: int): int
    requires n <= |stream|
  {
    if n == 0 then before
    else if stream[n - 1].Yields? && stream[n - 1].event.RateLimited? then stream[n - 1].event.attempt
    else LastAttempt(stream, n - 1, before)
  }

  /** The row's attempt is that of the last rate limit that was read. */
  ghost predicate AttemptTells(stream: seq<Signal>, cfg: Config, before: int, after: int) {
    && (AllTolerated(stream, |stream|, cfg) ==> after == LastAttempt(stream, |stream|, before))
    && (forall i :: FirstUntolerated(stream, i, cfg) ==> after == LastAttempt(stream, i + 1, before))
  }

  /** After tolerated signals only, the next one that is not tolerated decides, or the end of the stream. */
  lemma ReadingStops(stream: seq<Signal>, i: nat, cfg: Config, before: int)
    requires i <= |stream| && AllTolerated(stream, i, cfg) && (i < |stream| ==> !Tolerated(stream[i], cfg))
    ensures FirstDecisive(stream, cfg) == i
    ensures AttemptTells(stream, cfg, before, LastAttempt(stream, if i < |stream| then i + 1 else i, before))
  {
    forall s ensures Decisive(s, cfg) <==> !Tolerated(s, cfg) {
    }
    forall j | FirstUntolerated(stream, j, cfg) ensures j == i {
    }
  }

  /** A file with a size within the limit and an accepted format: the sniffed one, or else its extension. */
  predicate Fine(f: File, cfg: Config) {
    && f.size.Some? && f.size.value <= cfg.maxFileSize
    && match f.sniffed
       case Failure(_) => false
       case Success(Some(format)) => format != "" && format in cfg.acceptedFormats
       case Success(None) => f.extension != "" && f.extension in cfg.acceptedFormats
  }

  predicate FirstNotFine(files: seq<File>, i: int, cfg: Config) {
    0 <= i < |files| && !Fine(files[i], cfg) && forall k :: 0 <= k < i ==> Fine(files[k], cfg)
  }

  /** The run ends at its first bad file. */
  predicate FileTells(e: Ending, f: File, cfg: Config, env: Env) {
    match f.size
    case None => QuarantinesWith(e, "validation-failed", env)
    case Some(size) =>
      if size > cfg.maxFileSize then QuarantinesWith(e, "size-exceeds-limit", env)
      else match f.sniffed
        case Failure(message) => FailsWith(e, "unknown", Message(message))
        case Success(_) => QuarantinesWith(e, "format-unsupported", env)
  }

  /** A hash of 64 zeros stands for a first file that cannot be read. */
  predicate HashedAs(item: Item, hash: string)
    requires item.files != []
  {
    if item.files[0].hashable then hash == item.files[0].content
    else |hash| == 64 && forall i :: 0 <= i < 64 ==> hash[i] == '0'
  }

  /** The item is a duplicate of the first loot file that has its hash. */
  predicate FirstOfHash(files: seq<LootFile>, i: int, hash: string) {
    0 <= i < |files| && files[i].hash == hash && forall k :: 0 <= k < i ==> files[k].hash != hash
  }

  predicate FirstOfSource(records: seq<SourceRecord>, i: int, item: Item) {
    && 0 <= i < |records| && records[i].source == item.source && records[i].itemId == item.itemId
    && forall k :: 0 <= k < i ==> records[k].source != item.source || records[k].itemId != item.itemId
  }

  /** Where an item with acceptable files ends up: the loot that has its hash, else the one that has its source, else a
      new one. Each lookup that throws fails the job. */
  ghost predicate PlacementTells(e: Ending, item: Item, env: Env)
    requires item.files != []
  {
    exists hash :: HashedAs(item, hash) &&
      if env.hashLookup.Failure? then FailsWith(e, "unknown", Message(env.hashLookup.error))
      else if exists i :: FirstOfHash(e.before.files, i, hash) then
        exists i :: FirstOfHash(e.before.files, i, hash) && PlacesAt(e, e.before.files[i].loot, true, item, env)
      else (forall f :: f in e.before.files ==> f.hash != hash) && SourceTells(e, item, env)
  }

  ghost predicate SourceTells(e: Ending, item: Item, env: Env) {
    if env.sourceLookup.Failure? then FailsWith(e, "unknown", Message(env.sourceLookup.error))
    else if exists i :: FirstOfSource(e.before.records, i, item) then
      exists i :: FirstOfSource(e.before.records, i, item) && PlacesAt(e, e.before.records[i].loot, true, item, env)
    else
      && (forall r :: r in e.before.records ==> r.source != item.source || r.itemId != item.itemId)
      && NewLootTells(e, item, env)
  }

  predicate NewLootTells(e: Ending, item: Item, env: Env) {
    match (env.collection, env.stashRoot)
    case (Failure(message), _) => FailsWith(e, "unknown", Message(message))
    case (Success(false), _) => FailsWith(e, "unknown", NoCollection)
    case (Success(true), Failure(message)) => FailsWith(e, "unknown", Message(message))
    case (Success(true), Success(false)) => FailsWith(e, "unknown", NoStashRoot)
    case (Success(true), Success(true)) =>
      match env.placement
      case Creates(loot) => PlacesAt(e, loot, false, item, env)
      case Refuses(_) => QuarantinesWith(e, "placement-failed", env)
      case Breaks(message) => FailsWith(e, "unknown", Message(message))
  }

  ghost predicate ItemTells(e: Ending, item: Item, cfg: Config, env: Env) {
    var fs := item.files;
    && (fs == [] ==> QuarantinesWith(e, "validation-failed", env))
    && (forall i :: FirstNotFine(fs, i, cfg) ==> FileTells(e, fs[i], cfg, env))
    && (fs != [] && (forall i :: 0 <= i < |fs| ==> Fine(fs[i], cfg)) ==> PlacementTells(e, item, env))
  }

  /** The first signal that is not tolerated decides. Unless the adapter threw it, the adapter is closed, and what that
      throws replaces everything else. */
  ghost predicate SignalTells(e: Ending, s: Signal, cfg: Config, env: Env) {
    match s
    case Throws(message) => FailsWith(e, "unknown", Message(message))
    case Yields(event) =>
      if env.close.Failure? then FailsWith(e, "unknown", Message(env.close.error))
      else match event
        case Progress => false
        case RateLimited(attempt) => attempt > cfg.maxAttempts && FailsWith(e, "rate-limit-exhausted", TooManyAttempts)
        case AuthRequired(reason) => PausesWith(e, reason)
        case AdapterFailed(reason, message) => FailsWith(e, reason, Message(message))
        case Completed(item) => ItemTells(e, item, cfg, env)
  }

  /** What a run answers, by the position of the signal that decides. */
  ghost predicate RunTells(e: Ending, stream: seq<Signal>, cfg: Config, env: Env) {
    && (env.mkdir.Failure? ==> FailsWith(e, "unknown", Message(env.mkdir.error)))
    && (env.mkdir.Success? && AllTolerated(stream, |stream|, cfg) ==> FailsWith(e, "unknown", NoDecision))
    && (env.mkdir.Success? ==>
         forall i :: FirstUntolerated(stream, i, cfg) ==> SignalTells(e, stream[i], cfg, env))
  }

  /** The ending agrees with an outcome that has been worked out. */
  predicate Ends(e: Ending, outcome: Outcome, item: Option<Item>, env: Env) {
    && e.outcome == outcome && (e.stored ==> Agrees(outcome, e.row))
    && e.after == LibraryAfter(e.before, outcome, item, env)
  }

  lemma {:induction false} FindHashIsFirst(files: seq<LootFile>, hash: string)
    requires exists i :: 0 <= i < |files| && files[i].hash == hash
    ensures exists i :: FirstOfHash(files, i, hash) && files[i].loot == FindHash(files, hash)
  {
    if files[0].hash == hash {
      assert FirstOfHash(files, 0, hash);
    } else {
      var j :| 0 <= j < |files| && files[j].hash == hash;
      assert files[1..][j - 1].hash == hash;
      FindHashIsFirst(files[1..], hash);
      var i :| FirstOfHash(files[1..], i, hash) && files[1..][i].loot == FindHash(files[1..], hash);
      assert FirstOfHash(files, i + 1, hash) by {
        forall k | 0 <= k < i + 1 ensures files[k].hash != hash {
          assert k > 0 ==> files[k] == files[1..][k - 1];
        }
      }
    }
  }

  lemma {:induction false} FindSourceIsFirst(records: seq<SourceRecord>, item: Item)
    requires exists i :: 0 <= i < |records| && records[i].source == item.source && records[i].itemId == item.itemId
    ensures exists i :: FirstOfSource(records, i, item) && records[i].loot == FindSource(records, item)
  {
    if records[0].source == item.source && records[0].itemId == item.itemId {
      assert FirstOfSource(records, 0, item);
    } else {
      var j :| 0 <= j < |records| && records[j].source == item.source && records[j].itemId == item.itemId;
      assert records[1..][j - 1] == records[j];
      FindSourceIsFirst(records[1..], item);
      var i :| FirstOfSource(records[1..], i, item) && records[1..][i].loot == FindSource(records[1..], item);
      assert FirstOfSource(records, i + 1, item) by {
        forall k | 0 <= k < i + 1 ensures records[k].source != item.source || records[k].itemId != item.itemId {
          assert k > 0 ==> records[k] == records[1..][k - 1];
        }
      }
    }
  }

  lemma PlacedTells(e: Ending, loot: Id, deduped: bool, item: Item, env: Env)
    requires Ends(e, Placed(loot, deduped), Some(item), env)
    ensures PlacesAt(e, loot, deduped, item, env)
  {
  }

  lemma OutcomeOfNewLootTells(e: Ending, item: Item, env: Env)
    requires item.files != [] && env.hashLookup.Success? && env.sourceLookup.Success?
    requires !HasHash(e.before, PrimaryHash(item)) && !HasSource(e.before, item)
    requires Ends(e, PlacementOutcome(item, e.before, env), Some(item), env)
    ensures NewLootTells(e, item, env)
  {
    if env.placement.Creates? && e.outcome.Placed? {
      PlacedTells(e, env.placement.loot, false, item, env);
    }
  }

  lemma OutcomeOfSourceTells(e: Ending, item: Item, env: Env)
    requires item.files != [] && env.hashLookup.Success? && !HasHash(e.before, PrimaryHash(item))
    requires Ends(e, PlacementOutcome(item, e.before, env), Some(item), env)
    ensures SourceTells(e, item, env)
  {
    if env.sourceLookup.Success? {
      if HasSource(e.before, item) {
        FindSourceIsFirst(e.before.records, item);
        PlacedTells(e, LootOfSource(e.before, item), true, item, env);
      } else {
        OutcomeOfNewLootTells(e, item, env);
      }
    }
  }

  lemma OutcomeOfPlacementTells(e: Ending, item: Item, env: Env)
    requires item.files != [] && Ends(e, PlacementOutcome(item, e.before, env), Some(item), env)
    ensures PlacementTells(e, item, env)
  {
    var hash := PrimaryHash(item);
    assert HashedAs(item, hash);
    if env.hashLookup.Success? {
      if HasHash(e.before, hash) {
        FindHashIsFirst(e.before.files, hash);
        PlacedTells(e, LootOfHash(e.before, hash), true, item, env);
      } else {
        OutcomeOfSourceTells(e, item, env);
      }
    }
  }

  lemma OutcomeOfFileTells(e: Ending, f: File, cfg: Config, item: Item, env: Env)
    requires !Acceptable(f, cfg) && Ends(e, BadFileOutcome(f, cfg, env), Some(item), env)
    ensures FileTells(e, f, cfg, env)
  {
  }

  lemma AcceptableIsFine(f: File, cfg: Config)
    ensures Acceptable(f, cfg) <==> Fine(f, cfg)
  {
  }

  lemma FirstBadIs(files: seq<File>, cfg: Config)
    ensures FirstBad(files, cfg) < |files| ==> FirstNotFine(files, FirstBad(files, cfg), cfg)
    ensures forall i :: FirstNotFine(files, i, cfg) ==> i == FirstBad(files, cfg)
    ensures FirstBad(files, cfg) == |files| ==> forall i :: 0 <= i < |files| ==> Fine(files[i], cfg)
  {
    forall f ensures Acceptable(f, cfg) <==> Fine(f, cfg) {
      AcceptableIsFine(f, cfg);
    }
  }

  lemma OutcomeOfItemTells(e: Ending, item: Item, cfg: Config, env: Env)
    requires Ends(e, ItemOutcome(item, cfg, e.before, env), Some(item), env)
    ensures ItemTells(e, item, cfg, env)
  {
    if item.files != [] {
      FirstBadIs(item.files, cfg);
      var bad := FirstBad(item.files, cfg);
      if bad < |item.files| {
        OutcomeOfFileTells(e, item.files[bad], cfg, item, env);
      } else {
        assert PlacementTells(e, item, env) by {
          OutcomeOfPlacementTells(e, item, env);
        }
      }
    }
  }

  lemma OutcomeOfSignalTells(e: Ending, s: Signal, cfg: Config, item: Option<Item>, env: Env)
    requires Decisive(s, cfg) && Ends(e, SignalOutcome(s, cfg, e.before, env), item, env)
    requires env.close.Success? && s.Yields? && s.event.Completed? ==> item == Some(s.event.item)
    ensures SignalTells(e, s, cfg, env)
  {
    if env.close.Success? && s.Yields? && s.event.Completed? {
      OutcomeOfItemTells(e, s.event.item, cfg, env);
    }
  }

  lemma OutcomeTells(e: Ending, stream: seq<Signal>, cfg: Config, env: Env)
    requires Ends(e, OutcomeOf(stream, cfg, e.before, env), ItemOf(stream, cfg, env), env)
    ensures RunTells(e, stream, cfg, env)
  {
    forall s ensures Decisive(s, cfg) <==> !Tolerated(s, cfg) {
    }
    var i := FirstDecisive(stream, cfg);
    if env.mkdir.Success? && i < |stream| {
      assert DecisionOf(stream, cfg) == Some(stream[i]);
      OutcomeOfSignalTells(e, stream[i], cfg, ItemOf(stream, cfg, env), env);
      forall j | FirstUntolerated(stream, j, cfg) ensures j == i {
      }
    }
  }

  // ---------------------------------------------------------------- the pipeline

  datatype Effect =
    | StagingMade | RowWritten | QuarantineWritten | RecordWritten | LootCreated(loot: Id) | StagingRemoved

  /** How reading the stream ends. */
  datatype Driven = Got(item: Item) | Stops(outcome: Outcome)

  class IngestPipeline {
    const config: Config
    var row: Row
    var library: Library
    var log: seq<Effect>
    var writes: nat

    constructor (config: Config, row: Row, library: Library)
      ensures this.config == config && this.row == row && this.library == library && log == [] && writes == 0
    {
      this.config, this.row, this.library, log, writes := config, row, library, [], 0;
    }

    /** The log has grown, and not by the removal of the staging directory. */
    ghost predicate Logged(before: seq<Effect>) reads this {
      && |before| <= |log| && (forall k :: 0 <= k < |before| ==> log[k] == before[k])
      && (forall k :: |before| <= k < |log| ==> log[k] != StagingRemoved)
    }

    /** If the last row write reached the table, the row agrees with the outcome. */
    ghost predicate Settled(outcome: Outcome, env: Env) reads this {
      writes > 0 && (writes - 1 !in env.lostWrites ==> Agrees(outcome, row))
    }

    /** No step so far has touched the row's loot, quarantine item or failure. */
    ghost predicate OnlyProgress(before: Row) reads this {
      row == before.(status := row.status, attempt := row.attempt)
    }

    method SafeUpdateJob(next: Row, env: Env)
      modifies this
      ensures row == (if old(writes) in env.lostWrites then old(row) else next) && writes == old(writes) + 1
      ensures library == old(library) && log == old(log) + [RowWritten]
    {
      if writes !in env.lostWrites {
        row := next;
      }
      writes := writes + 1;
      log := log + [RowWritten];
    }

    method SafeCreateQuarantineItem(env: Env) returns (item: Option<Id>)
      modifies this
      ensures item == if env.collection == Success(true) then env.quarantineId else None
      ensures row == old(row) && writes == old(writes) && library == old(library) && Logged(old(log))
    {
      if env.collection != Success(true) {
        return None;
      }
      if env.quarantineId.Some? {
        log := log + [QuarantineWritten];
      }
      return env.quarantineId;
    }

    method Quarantine(why: string, env: Env) returns (outcome: Outcome)
      modifies this
      ensures outcome == QuarantineFor(env, why) && Settled(outcome, env)
      ensures library == old(library) && Logged(old(log))
      ensures row.failureReason == old(row.failureReason) && row.loot == old(row.loot)
      ensures row.attempt == old(row.attempt)
    {
      var item := SafeCreateQuarantineItem(env);
      if item.Some? {
        SafeUpdateJob(row.(status := InQuarantine, quarantineItem := item), env);
      } else {
        SafeUpdateJob(row.(status := InQuarantine), env);
      }
      outcome := Quarantined(if item.Some? then item.value else "", why);
    }

    method EnsureLootSourceRecord(loot: Id, item: Item, env: Env)
      modifies this
      ensures library == Recorded(old(library), loot, item, env)
      ensures row == old(row) && writes == old(writes) && log == old(log) + [RecordWritten]
    {
      var r := SourceRecord(loot, item.source, item.itemId);
      if !env.recordInsertFails && r !in library.records {
        library := library.(records := library.records + [r]);
      }
      log := log + [RecordWritten];
    }

    /** Leaving the event loop early closes the adapter; what that throws replaces what the loop was about to return. */
    method LeaveLoop(driven: Driven, env: Env) returns (r: Awaited<Driven>)
      ensures r == if env.close.Failure? then Failure(env.close.error) else Success(driven)
    {
      if env.close.Failure? {
        return Failure(env.close.error);
      }
      return Success(driven);
    }

    /** The event loop. */
    method DriveAdapter(stream: seq<Signal>, env: Env) returns (r: Awaited<Driven>)
      modifies this
      ensures library == old(library) && Logged(old(log)) && row.loot == old(row.loot)
      ensures var i := FirstDecisive(stream, config);
        if i == |stream| then r == Success(Stops(Failed("unknown", NoDecision)))
        else if stream[i].Throws? then r == Failure(stream[i].message)
        else if env.close.Failure? then r == Failure(env.close.error)
        else if stream[i].event.Completed? then r == Success(Got(stream[i].event.item))
        else r == Success(Stops(SignalOutcome(stream[i], config, library, env)))
      ensures r.Success? && r.value.Stops? ==> Settled(r.value.outcome, env)
      ensures r.Success? && r.value.Got? ==> OnlyProgress(old(row))
      ensures env.lostWrites == {} ==> AttemptTells(stream, config, old(row.attempt), row.attempt)
    {
      var i := 0;
      while i < |stream|
        invariant 0 <= i <= |stream|
        invariant library == old(library) && Logged(old(log)) && OnlyProgress(old(row))
        invariant AllTolerated(stream, i, config)
        invariant env.lostWrites == {} ==> row.attempt == LastAttempt(stream, i, old(row.attempt))
      {
        if !Tolerated(stream[i], config) {
          ReadingStops(stream, i, config, old(row.attempt));
        }
        if stream[i].Throws? {
          return Failure(stream[i].message);
        }
        match stream[i].event {
          case Progress =>
          case RateLimited(attempt) =>
            if attempt > config.maxAttempts {
              var details := TooManyAttempts;
              SafeUpdateJob(row.(status := HasFailed, failureReason := Some("rate-limit-exhausted"),
                failureDetails := Some(details), attempt := attempt), env);
              r := LeaveLoop(Stops(Failed("rate-limit-exhausted", details)), env);
              return;
            }
            SafeUpdateJob(row.(attempt := attempt), env);
          case AuthRequired(reason) =>
            SafeUpdateJob(row.(status := Paused, failureReason := Some(reason)), env);
            r := LeaveLoop(Stops(PausedAuth(reason)), env);
            return;
          case AdapterFailed(reason, message) =>
            SafeUpdateJob(row.(status := HasFailed, failureReason := Some(reason),
              failureDetails := Some(Message(message))), env);
            r := LeaveLoop(Stops(Failed(reason, Message(message))), env);
            return;
          case Completed(item) =>
            r := LeaveLoop(Got(item), env);
            return;
        }
        i := i + 1;
      }
      ReadingStops(stream, i, config, old(row.attempt));
      SafeUpdateJob(row.(status := HasFailed, failureReason := Some("unknown"), failureDetails := Some(NoDecision)),
        env);
      return Success(Stops(Failed("unknown", NoDecision)));
    }

    /** Size and format of every file, up to the first bad one. */
    method CheckFiles(files: seq<File>, env: Env) returns (r: Awaited<Option<Outcome>>)
      modifies this
      ensures library == old(library) && Logged(old(log))
      ensures row.failureReason == old(row.failureReason) && row.loot == old(row.loot)
      ensures row.attempt == old(row.attempt)
      ensures var i := FirstBad(files, config);
        if i == |files| then r == Success(None) && row == old(row)
        else if r.Failure? then BadFileOutcome(files[i], config, env) == UnknownFailure(r.error) && row == old(row)
        else r == Success(Some(BadFileOutcome(files[i], config, env))) && Settled(r.value.value, env)
    {
      var i := 0;
      while i < |files|
        invariant 0 <= i <= |files|
        invariant forall k :: 0 <= k < i ==> Acceptable(files[k], config)
        invariant library == old(library) && log == old(log) && row == old(row)
      {
        var file := files[i];
        if file.size.None? {
          var outcome := Quarantine("validation-failed", env);
          return Success(Some(outcome));
        }
        if file.size.value > config.maxFileSize {
          var outcome := Quarantine("size-exceeds-limit", env);
          return Success(Some(outcome));
        }
        if file.sniffed.Failure? {
          return Failure(file.sniffed.error);
        }
        var format := if file.sniffed.value.Some? then file.sniffed.value.value else file.extension;
        if format == "" || format !in config.acceptedFormats {
          var outcome := Quarantine("format-unsupported", env);
          return Success(Some(outcome));
        }
        i := i + 1;
      }
      return Success(None);
    }

    /** A file that cannot be read is hashed as zeros. */
    method HashFiles(files: seq<File>) returns (hashes: seq<string>)
      ensures |hashes| == |files|
      ensures forall k :: 0 <= k < |files| ==> hashes[k] == if files[k].hashable then files[k].content else ZERO_HASH
    {
      hashes := [];
      for i := 0 to |files|
        invariant |hashes| == i
        invariant forall k :: 0 <= k < i ==> hashes[k] == if files[k].hashable then files[k].content else ZERO_HASH
      {
        hashes := hashes + [if files[i].hashable then files[i].content else ZERO_HASH];
      }
    }

    /** Deduplication, then placement of a new loot. */
    method Place(item: Item, env: Env) returns (r: Awaited<Outcome>)
      requires item.files != []
      modifies this
      ensures Logged(old(log)) && PlacementOutcome(item, old(library), env) == Returned(r)
      ensures r.Success? ==> Settled(r.value, env)
      ensures SameLoot(Returned(r), old(row), row) && SameReason(Returned(r), old(row), row)
      ensures row.attempt == old(row.attempt)
      ensures library == LibraryAfter(old(library), Returned(r), Some(item), env)
    {
      var hashes := HashFiles(item.files);
      var primaryHash := hashes[0];
      if env.hashLookup.Failure? {
        return Failure(env.hashLookup.error);
      }
      if HasHash(library, primaryHash) {
        var loot := LootOfHash(library, primaryHash);
        EnsureLootSourceRecord(loot, item, env);
        SafeUpdateJob(row.(status := Done, loot := Some(loot)), env);
        return Success(Placed(loot, true));
      }
      if env.sourceLookup.Failure? {
        return Failure(env.sourceLookup.error);
      }
      if HasSource(library, item) {
        var loot := LootOfSource(library, item);
        EnsureLootSourceRecord(loot, item, env);
        SafeUpdateJob(row.(status := Done, loot := Some(loot)), env);
        return Success(Placed(loot, true));
      }
      SafeUpdateJob(row.(status := Placing), env);
      r := PlaceNew(item, env);
    }

    method PlaceNew(item: Item, env: Env) returns (r: Awaited<Outcome>)
      requires item.files != [] && env.hashLookup.Success? && env.sourceLookup.Success?
      requires !HasHash(library, PrimaryHash(item)) && !HasSource(library, item)
      modifies this
      ensures Logged(old(log)) && PlacementOutcome(item, old(library), env) == Returned(r)
      ensures r.Success? ==> Settled(r.value, env)
      ensures SameLoot(Returned(r), old(row), row) && SameReason(Returned(r), old(row), row)
      ensures row.attempt == old(row.attempt)
      ensures library == LibraryAfter(old(library), Returned(r), Some(item), env)
    {
      if env.collection.Failure? {
        return Failure(env.collection.error);
      }
      if !env.collection.value {
        SafeUpdateJob(row.(status := HasFailed, failureReason := Some("unknown"),
          failureDetails := Some(NoCollection)), env);
        return Success(Failed("unknown", NoCollection));
      }
      if env.stashRoot.Failure? {
        return Failure(env.stashRoot.error);
      }
      if !env.stashRoot.value {
        SafeUpdateJob(row.(status := HasFailed, failureReason := Some("unknown"),
          failureDetails := Some(NoStashRoot)), env);
        return Success(Failed("unknown", NoStashRoot));
      }
      match env.placement {
        case Breaks(message) =>
          return Failure(message);
        case Refuses(_) =>
          var outcome := Quarantine("placement-failed", env);
          return Success(outcome);
        case Creates(loot) =>
          library := Stocked(library, loot, item.files);
          log := log + [LootCreated(loot)];
          EnsureLootSourceRecord(loot, item, env);
          SafeUpdateJob(row.(status := Done, loot := Some(loot)), env);
          return Success(Placed(loot, false));
      }
    }

    /** Everything after the adapter has completed: validation, deduplication, placement. */
    method IngestItem(item: Item, env: Env) returns (r: Awaited<Outcome>)
      modifies this
      ensures Logged(old(log)) && ItemOutcome(item, config, old(library), env) == Returned(r)
      ensures r.Success? ==> Settled(r.value, env)
      ensures SameLoot(Returned(r), old(row), row) && SameReason(Returned(r), old(row), row)
      ensures row.attempt == old(row.attempt)
      ensures library == LibraryAfter(old(library), Returned(r), Some(item), env)
    {
      if |item.files| == 0 {
        var quarantined := SafeCreateQuarantineItem(env);
        SafeUpdateJob(row.(status := InQuarantine, quarantineItem := quarantined, failureDetails := Some(NoFiles)),
          env);
        return Success(Quarantined(if quarantined.Some? then quarantined.value else "", "validation-failed"));
      }
      var bad := CheckFiles(item.files, env);
      if bad.Failure? {
        return Failure(bad.error);
      }
      if bad.value.Some? {
        return Success(bad.value.value);
      }
      r := Place(item, env);
    }

    /** The body of the try block: an outcome, or the message of what was thrown. */
    method Attempt(stream: seq<Signal>, env: Env) returns (r: Awaited<Outcome>)
      modifies this
      ensures Logged(old(log)) && OutcomeOf(stream, config, old(library), env) == Returned(r)
      ensures r.Success? ==> Settled(r.value, env)
      ensures SameLoot(Returned(r), old(row), row) && SameReason(Returned(r), old(row), row)
      ensures env.mkdir.Success? && env.lostWrites == {} ==> AttemptTells(stream, config, old(row.attempt), row.attempt)
      ensures library == LibraryAfter(old(library), Returned(r), ItemOf(stream, config, env), env)
    {
      if env.mkdir.Failure? {
        return Failure(env.mkdir.error);
      }
      log := log + [StagingMade];
      SafeUpdateJob(row.(status := Fetching), env);
      var driven := DriveAdapter(stream, env);
      if driven.Failure? {
        return Failure(driven.error);
      }
      if driven.value.Stops? {
        return Success(driven.value.outcome);
      }
      r := IngestItem(driven.value.item, env);
    }

    /** The try block and its catch. */
    method AttemptOrFail(stream: seq<Signal>, env: Env) returns (outcome: Outcome)
      modifies this
      ensures outcome == OutcomeOf(stream, config, old(library), env) && Settled(outcome, env) && Logged(old(log))
      ensures RunTells(Ending(outcome, row, writes - 1 !in env.lostWrites, old(library), library), stream, config, env)
      ensures SameLoot(outcome, old(row), row) && SameReason(outcome, old(row), row)
      ensures env.mkdir.Success? && env.lostWrites == {} ==> AttemptTells(stream, config, old(row.attempt), row.attempt)
      ensures library == LibraryAfter(old(library), outcome, ItemOf(stream, config, env), env)
    {
      ghost var item := ItemOf(stream, config, env);
      var r := Attempt(stream, env);
      if r.Success? {
        outcome := r.value;
      } else {
        SafeUpdateJob(row.(status := HasFailed, failureReason := Some("unknown"),
          failureDetails := Some(Message(r.error))), env);
        outcome := UnknownFailure(r.error);
      }
      ghost var e := Ending(outcome, row, writes - 1 !in env.lostWrites, old(library), library);
      assert Ends(e, outcome, item, env);
      assert RunTells(e, stream, config, env) by {
        OutcomeTells(e, stream, config, env);
      }
    }

    /** A whole run, with its finally. */
    method Run(stream: seq<Signal>, env: Env) returns (outcome: Outcome)
      modifies this
      ensures outcome == OutcomeOf(stream, config, old(library), env) && Settled(outcome, env)
      ensures RunTells(Ending(outcome, row, writes - 1 !in env.lostWrites, old(library), library), stream, config, env)
      ensures SameLoot(outcome, old(row), row) && SameReason(outcome, old(row), row)
      ensures env.mkdir.Success? && env.lostWrites == {} ==> AttemptTells(stream, config, old(row.attempt), row.attempt)
      ensures env.lostWrites == {} ==> row.status == StatusOf(outcome)
      ensures env.lostWrites == {} ==>
        (ReasonAsDocumented(row) <==>
          !Pauses(stream, config, env) && (Places(stream, config, old(library), env) ==> old(row).failureReason.None?))
      ensures library == LibraryAfter(old(library), outcome, ItemOf(stream, config, env), env)
      ensures log != [] && log[|log| - 1] == StagingRemoved
      ensures |old(log)| < |log| && forall k :: |old(log)| <= k < |log| - 1 ==> log[k] != StagingRemoved
    {
      PausesAndPlacesIff(stream, config, library, env);
      ghost var before := row;
      outcome := AttemptOrFail(stream, env);
      log := log + [StagingRemoved];
      if env.lostWrites == {} {
        ReasonDocumentedIff(outcome, before, row);
      }
    }
  }

  lemma ReasonDocumentedIff(outcome: Outcome, before: Row, after: Row)
    requires Agrees(outcome, after) && SameReason(outcome, before, after)
    ensures after.status == StatusOf(outcome)
    ensures ReasonAsDocumented(after) <==> !outcome.PausedAuth? && (outcome.Placed? ==> before.failureReason.None?)
  {
  }

  /** What `run` answers: the outcome of the try block, or that of its catch. */
  function Returned(r: Awaited<Outcome>): Outcome {
    if r.Success? then r.value else UnknownFailure(r.error)
  }

  // ---------------------------------------------------------------- rows that contradict the schema's comment

  const CALM := Env(Success(()), Success(()), Success(()), Success(()), Success(true), Success(true), Creates("l"),
    Some("q"), false, {})

  const SETTINGS := Config(100, {"stl"}, 50)

  const FRESH := Row(Queued, None, None, None, None, 1)

  /** A fresh job whose adapter asks for authentication: its row is paused and has a failure reason. */
  method PausedJobHasReason() returns (row: Row)
    ensures row.status == Paused && row.failureReason == Some("expired") && !ReasonAsDocumented(row)
  {
    var p := new IngestPipeline(SETTINGS, FRESH, Library([], []));
    var stream := [Yields(AuthRequired("expired"))];
    var outcome := p.Run(stream, CALM);
    assert outcome == PausedAuth("expired");
    assert p.Settled(outcome, CALM);
    row := p.row;
  }

  /** The same job resumed and completed: its row is done and still has the reason of the pause. */
  method ResumedJobKeepsReason() returns (row: Row)
    ensures row.status == Done && row.failureReason == Some("expired") && !ReasonAsDocumented(row)
  {
    var p := new IngestPipeline(SETTINGS, FRESH.(status := Running, failureReason := Some("expired")), Library([], []));
    var item := Item("printables", "1", [File(Some(10), Success(None), "stl", "h", true)]);
    var stream := [Yields(Completed(item))];
    assert FirstBad(item.files, SETTINGS) == 1;
    var outcome := p.Run(stream, CALM);
    assert outcome == Placed("l", false);
    row := p.row;
  }

  // ---------------------------------------------------------------- which signals matter

  lemma {:induction false} FirstDecisiveOfAppend(stream: seq<Signal>, rest: seq<Signal>, cfg: Config)
    ensures FirstDecisive(stream + rest, cfg) ==
      if FirstDecisive(stream, cfg) < |stream| then FirstDecisive(stream, cfg) else |stream| + FirstDecisive(rest, cfg)
  {
    if stream == [] {
      assert stream + rest == rest;
    } else {
      assert (stream + rest)[0] == stream[0] && (stream + rest)[1..] == stream[1..] + rest;
      FirstDecisiveOfAppend(stream[1..], rest, cfg);
    }
  }

  lemma DecisionOfAppend(stream: seq<Signal>, rest: seq<Signal>, cfg: Config)
    ensures DecisionOf(stream + rest, cfg) ==
      if DecisionOf(stream, cfg).Some? then DecisionOf(stream, cfg) else DecisionOf(rest, cfg)
  {
    FirstDecisiveOfAppend(stream, rest, cfg);
    var i, j := FirstDecisive(stream, cfg), FirstDecisive(rest, cfg);
    assert i < |stream| ==> (stream + rest)[i] == stream[i];
    assert j < |rest| ==> (stream + rest)[|stream| + j] == rest[j];
  }

  /** Nothing the adapter would send after its first decisive signal has any effect, as long as closing the adapter
      then goes the same way. A close that throws turns every decisive event, whatever it was, into an unknown
      failure. */
  lemma NothingAfterDecision(stream: seq<Signal>, rest: seq<Signal>, cfg: Config, lib: Library, env: Env)
    requires FirstDecisive(stream, cfg) < |stream|
    ensures OutcomeOf(stream + rest, cfg, lib, env) == OutcomeOf(stream, cfg, lib, env)
    ensures env.mkdir.Success? && env.close.Failure? && stream[FirstDecisive(stream, cfg)].Yields? ==>
      OutcomeOf(stream + rest, cfg, lib, env) == UnknownFailure(env.close.error)
  {
    DecisionOfAppend(stream, rest, cfg);
  }

  /** How the adapter closes matters if and only if it yields a decisive event: an adapter that ends or throws by
      itself is not closed. */
  lemma CloseMattersIff(stream: seq<Signal>, cfg: Config, lib: Library, env: Env)
    requires env.mkdir.Success?
    ensures (forall c :: OutcomeOf(stream, cfg, lib, env.(close := c)) == OutcomeOf(stream, cfg, lib, env)) <==>
      !(FirstDecisive(stream, cfg) < |stream| && stream[FirstDecisive(stream, cfg)].Yields?)
  {
    if FirstDecisive(stream, cfg) < |stream| && stream[FirstDecisive(stream, cfg)].Yields? {
      var one, other := Failure("one"), Failure("other");
      assert "one"[0] == 'o' && |"one"| != |"other"|;
      assert OutcomeOf(stream, cfg, lib, env.(close := one)) == UnknownFailure("one");
      assert OutcomeOf(stream, cfg, lib, env.(close := other)) == UnknownFailure("other");
    }
  }

  /** Progress and tolerated rate limits before it have none either. */
  lemma NothingBeforeDecision(stream: seq<Signal>, rest: seq<Signal>, cfg: Config, lib: Library, env: Env)
    requires AllTolerated(stream, |stream|, cfg)
    ensures OutcomeOf(stream + rest, cfg, lib, env) == OutcomeOf(rest, cfg, lib, env)
  {
    forall s ensures Decisive(s, cfg) <==> !Tolerated(s, cfg) {
    }
    DecisionOfAppend(stream, rest, cfg);
  }

  /** The run gets as far as asking the placement helper for a new loot. */
  predicate Unhindered(item: Item, cfg: Config, lib: Library, env: Env) {
    && AllAcceptable(item.files, cfg)
    && env.hashLookup.Success? && !HasHash(lib, PrimaryHash(item))
    && env.sourceLookup.Success? && !HasSource(lib, item)
    && env.collection == Success(true) && env.stashRoot == Success(true)
  }

  /** Exactly when a run pauses, and when it places a loot, old or new: both can be told from its inputs. */
  lemma PausesAndPlacesIff(stream: seq<Signal>, cfg: Config, lib: Library, env: Env)
    ensures OutcomeOf(stream, cfg, lib, env).PausedAuth? <==> Pauses(stream, cfg, env)
    ensures OutcomeOf(stream, cfg, lib, env).Placed? <==> Places(stream, cfg, lib, env)
  {
    if ItemOf(stream, cfg, env).Some? {
      AllAcceptableIff(ItemOf(stream, cfg, env).value.files, cfg);
    }
  }

  /** Exactly when a run places a new loot. */
  lemma PlacesNewLootIff(stream: seq<Signal>, cfg: Config, lib: Library, env: Env, loot: Id)
    ensures OutcomeOf(stream, cfg, lib, env) == Placed(loot, false) <==>
      ItemOf(stream, cfg, env).Some? && Unhindered(ItemOf(stream, cfg, env).value, cfg, lib, env) &&
        env.placement == Creates(loot)
  {
    if ItemOf(stream, cfg, env).Some? {
      AllAcceptableIff(ItemOf(stream, cfg, env).value.files, cfg);
    }
  }

  lemma AllAcceptableIff(files: seq<File>, cfg: Config)
    ensures FirstBad(files, cfg) == |files| <==> forall f :: f in files ==> Acceptable(f, cfg)
  {
    var bad := FirstBad(files, cfg);
    if bad < |files| {
      assert files[bad] in files;
    }
  }

  // ---------------------------------------------------------------- deduplication over histories

  datatype Call = Call(stream: seq<Signal>, cfg: Config, env: Env)

  function After(lib: Library, c: Call): Library {
    LibraryAfter(lib, OutcomeOf(c.stream, c.cfg, lib, c.env), ItemOf(c.stream, c.cfg, c.env), c.env)
  }

  /** The item for which a call creates a new loot, if it does. */
  function Created(lib: Library, c: Call): Option<Item> {
    var outcome := OutcomeOf(c.stream, c.cfg, lib, c.env);
    if outcome.Placed? && !outcome.deduped then ItemOf(c.stream, c.cfg, c.env) else None
  }

  function AfterAll(lib: Library, calls: seq<Call>): Library {
    if calls == [] then lib else After(AfterAll(lib, calls[..|calls| - 1]), calls[|calls| - 1])
  }

  /** The items for which a history of sequential runs has created loots, in order. */
  function Creations(lib: Library, calls: seq<Call>): seq<Item> {
    if calls == [] then []
    else
      var init := calls[..|calls| - 1];
      var created := Created(AfterAll(lib, init), calls[|calls| - 1]);
      Creations(lib, init) + if created.Some? then [created.value] else []
  }

  predicate Grows(before: Library, after: Library) {
    && |before.files| <= |after.files| && after.files[..|before.files|] == before.files
    && |before.records| <= |after.records| && after.records[..|before.records|] == before.records
  }

  lemma GrowthKeeps(before: Library, after: Library)
    requires Grows(before, after)
    ensures forall hash :: HasHash(before, hash) ==> HasHash(after, hash)
    ensures forall item :: HasSource(before, item) ==> HasSource(after, item)
  {
    forall hash | HasHash(before, hash)
      ensures HasHash(after, hash)
    {
      var i :| 0 <= i < |before.files| && before.files[i].hash == hash;
      assert after.files[..|before.files|][i].hash == hash;
    }
    forall item | HasSource(before, item)
      ensures HasSource(after, item)
    {
      var i :| 0 <= i < |before.records| && before.records[i].source == item.source &&
        before.records[i].itemId == item.itemId;
      assert after.records[..|before.records|][i] == before.records[i];
    }
  }

  lemma RecordedHas(lib: Library, loot: Id, item: Item, env: Env)
    requires !env.recordInsertFails
    ensures HasSource(Recorded(lib, loot, item, env), item)
  {
    var r := SourceRecord(loot, item.source, item.itemId);
    var after := Recorded(lib, loot, item, env);
    assert r in after.records;
    var i :| 0 <= i < |after.records| && after.records[i] == r;
  }

  lemma StockedHas(lib: Library, loot: Id, files: seq<File>)
    ensures forall f :: f in files ==> HasHash(Stocked(lib, loot, files), f.content)
  {
    forall f | f in files
      ensures HasHash(Stocked(lib, loot, files), f.content)
    {
      var i :| 0 <= i < |files| && files[i] == f;
      assert Stocked(lib, loot, files).files[|lib.files| + i].hash == f.content;
    }
  }

  /** A created loot was new to the library, and its files and its source are known from then on. */
  lemma CreatedIsKnown(lib: Library, c: Call)
    requires Created(lib, c).Some?
    ensures var item := Created(lib, c).value;
      && item.files != [] && !HasHash(lib, PrimaryHash(item)) && !HasSource(lib, item)
      && (forall f :: f in item.files ==> HasHash(After(lib, c), f.content))
      && (!c.env.recordInsertFails ==> HasSource(After(lib, c), item))
  {
    var item := Created(lib, c).value;
    var loot := OutcomeOf(c.stream, c.cfg, lib, c.env).loot;
    PlacesNewLootIff(c.stream, c.cfg, lib, c.env, loot);
    StockedHas(lib, loot, item.files);
    if !c.env.recordInsertFails {
      RecordedHas(Stocked(lib, loot, item.files), loot, item, c.env);
    }
  }

  predicate NoLostRecords(calls: seq<Call>) {
    forall k :: 0 <= k < |calls| ==> !calls[k].env.recordInsertFails
  }

  /** What a history has created stays known. */
  lemma {:induction false} CreationsAreKnown(lib: Library, calls: seq<Call>)
    ensures forall item, f :: item in Creations(lib, calls) && f in item.files ==>
      HasHash(AfterAll(lib, calls), f.content)
    ensures NoLostRecords(calls) ==> forall item :: item in Creations(lib, calls) ==>
      HasSource(AfterAll(lib, calls), item)
  {
    if calls != [] {
      var init, c := calls[..|calls| - 1], calls[|calls| - 1];
      var now := AfterAll(lib, init);
      CreationsAreKnown(lib, init);
      GrowthKeeps(now, After(now, c));
      if Created(now, c).Some? {
        CreatedIsKnown(now, c);
      }
    }
  }

  /** Over any history each (source, item id) creates at most one loot. */
  lemma {:induction false} OneLootPerSource(lib: Library, calls: seq<Call>, i: nat, j: nat)
    requires NoLostRecords(calls) && i < j < |Creations(lib, calls)|
    ensures Creations(lib, calls)[i].source != Creations(lib, calls)[j].source ||
            Creations(lib, calls)[i].itemId != Creations(lib, calls)[j].itemId
  {
    var init, c := calls[..|calls| - 1], calls[|calls| - 1];
    if j < |Creations(lib, init)| {
      OneLootPerSource(lib, init, i, j);
    } else {
      CreationsAreKnown(lib, init);
      CreatedIsKnown(AfterAll(lib, init), c);
      SameSource(AfterAll(lib, init), Creations(lib, calls)[i], Creations(lib, calls)[j]);
    }
  }

  lemma SameSource(lib: Library, x: Item, y: Item)
    requires HasSource(lib, x) && !HasSource(lib, y)
    ensures x.source != y.source || x.itemId != y.itemId
  {
  }

  /** Over any history no loot is created for a primary file whose content an earlier created loot already holds,
      in any of its files, as long as that primary file could be hashed. */
  lemma {:induction false} OneLootPerPrimaryHash(lib: Library, calls: seq<Call>, i: nat, j: nat, f: File)
    requires i < j < |Creations(lib, calls)| && f in Creations(lib, calls)[i].files
    ensures Creations(lib, calls)[j].files != []
    ensures Creations(lib, calls)[j].files[0].hashable ==> f.content != Creations(lib, calls)[j].files[0].content
  {
    var init, c := calls[..|calls| - 1], calls[|calls| - 1];
    if j < |Creations(lib, init)| {
      OneLootPerPrimaryHash(lib, init, i, j, f);
    } else {
      CreationsAreKnown(lib, init);
      CreatedIsKnown(AfterAll(lib, init), c);
      assert Creations(lib, calls)[i] in Creations(lib, init);
      OtherContent(AfterAll(lib, init), Creations(lib, calls)[j], f);
    }
  }

  lemma OtherContent(lib: Library, item: Item, f: File)
    requires item.files != [] && !HasHash(lib, PrimaryHash(item)) && HasHash(lib, f.content)
    ensures item.files[0].hashable ==> f.content != item.files[0].content
  {
  }

  /** An item ingested again resolves to a loot that already carries its attribution, instead of a new one. */
  lemma ReingestIsDeduped(lib: Library, item: Item, cfg: Config, env: Env)
    requires HasSource(lib, item) && item.files != [] && forall f :: f in item.files ==> Acceptable(f, cfg)
    requires env.hashLookup.Success? && env.sourceLookup.Success?
    ensures exists loot ::
      && ItemOutcome(item, cfg, lib, env) == Placed(loot, true)
      && (LootFile(loot, PrimaryHash(item)) in lib.files || SourceRecord(loot, item.source, item.itemId) in lib.records)
  {
    assert FirstBad(item.files, cfg) == |item.files|;
    if HasHash(lib, PrimaryHash(item)) {
      assert ItemOutcome(item, cfg, lib, env) == Placed(LootOfHash(lib, PrimaryHash(item)), true);
    } else {
      assert ItemOutcome(item, cfg, lib, env) == Placed(LootOfSource(lib, item), true);
    }
  }
}
