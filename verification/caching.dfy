/**
 The caching loop (`run_periodic_fetch`): each cycle turns the fetched
 snapshot into either nothing or one JSON file named after the cycle's start
 time; failures inside a cycle are logged and the loop goes on; only a
 failed directory setup or an interrupt ends it.
 */
module Caching {
  import opened Wrappers
  import opened Fetcher
  import Naming

  /** The two configuration constants of the script. */
  datatype Config = Config(interval: nat, directory: string)

  const DefaultConfig := Config(60, "flight_data_cache")

  // ---------------------------------------------------------------------
  // Paths
  // ---------------------------------------------------------------------

  /** What `os.path.join` puts in front of a relative name. */
  function DirPrefix(directory: string): string {
    if |directory| == 0 || directory[|directory| - 1] == '/' then directory else directory + "/"
  }

  /** POSIX `os.path.join(directory, name)`. */
  function Join(directory: string, name: string): string {
    if |name| > 0 && name[0] == '/' then name else DirPrefix(directory) + name
  }

  /** Where the file of a cycle that started at `start` goes. */
  function CachePath(config: Config, start: Naming.Timestamp): string {
    Join(config.directory, Naming.FileName(start))
  }

  /** Reads the second back out of a path inside `directory`. */
  function ParsePath(directory: string, path: string): Option<Naming.Second> {
    var prefix := DirPrefix(directory);
    if |prefix| <= |path| && path[..|prefix|] == prefix
    then Naming.ParseFileName(path[|prefix|..])
    else None
  }

  /** A cache path lies in the cache directory and names the second its cycle started in. */
  lemma CachePathRoundTrip(config: Config, start: Naming.Timestamp)
    ensures ParsePath(config.directory, CachePath(config, start)) == Some(Naming.Truncate(start))
  {
    var prefix := DirPrefix(config.directory);
    var name := Naming.FileName(start);
    assert CachePath(config, start) == prefix + name;
    assert (prefix + name)[|prefix|..] == name;
    Naming.FileNameRoundTrip(start);
  }

  /** Cycles started in different seconds write different files; within one second, the same file. */
  lemma CachePathSecondResolution(config: Config, t1: Naming.Timestamp, t2: Naming.Timestamp)
    ensures CachePath(config, t1) == CachePath(config, t2) <==> Naming.Truncate(t1) == Naming.Truncate(t2)
  {
    CachePathRoundTrip(config, t1);
    CachePathRoundTrip(config, t2);
  }

  // ---------------------------------------------------------------------
  // Serialisation
  // ---------------------------------------------------------------------

  /** A JSON object as written by `json.dump`: its members in insertion order. */
  type FieldMap = seq<(string, Value)>

  function Keys(m: FieldMap): seq<string> {
    seq(|m|, k requires 0 <= k < |m| => m[k].0)
  }

  /** The value of `key` as a JSON reader sees it (a later duplicate wins). */
  function Lookup(m: FieldMap, key: string): (r: Option<Value>)
    ensures r.Some? <==> key in Keys(m)
    decreases |m|
  {
    if |m| == 0 then None
    else
      assert Keys(m) == Keys(m[..|m| - 1]) + [m[|m| - 1].0];
      if m[|m| - 1].0 == key then Some(m[|m| - 1].1)
      else Lookup(m[..|m| - 1], key)
  }

  /** Reads a record back from its field map; None when a field is missing or ill-typed. */
  function FromFieldMap(m: FieldMap): Option<Airplane> {
    match (Lookup(m, "id"), Lookup(m, "latitude"), Lookup(m, "longitude"))
    case (Some(Text(id)), Some(lat), Some(lon)) =>
      if lat != Null && lon != Null then Some(Airplane(id, lat, lon)) else None
    case _ => None
  }

  /**
   `vars(plane)`: the record's attributes in declaration order. The map has
   exactly the keys `id`, `latitude` and `longitude`, and reads back as the record.
   */
  function ToFieldMap(a: Airplane): (m: FieldMap)
    ensures Keys(m) == ["id", "latitude", "longitude"]
    ensures FromFieldMap(m) == Some(a)
  {
    var m := [("id", Text(a.id)), ("latitude", a.latitude), ("longitude", a.longitude)];
    assert m[..2] == [m[0], m[1]] && m[..2][..1] == [m[0]];
    assert Lookup(m[..1], "id") == Some(Text(a.id));
    assert Lookup(m[..2], "id") == Some(Text(a.id));
    assert Lookup(m, "latitude") == Some(a.latitude);
    m
  }

  /** `[vars(plane) for plane in airplanes]`: one field map per record, in order. */
  function Payload(planes: seq<Airplane>): (records: seq<FieldMap>)
    ensures |records| == |planes|
    ensures forall j :: 0 <= j < |planes| ==> Keys(records[j]) == ["id", "latitude", "longitude"]
    ensures forall j :: 0 <= j < |planes| ==> FromFieldMap(records[j]) == Some(planes[j])
  {
    seq(|planes|, j requires 0 <= j < |planes| => ToFieldMap(planes[j]))
  }

  /** Reads a whole file's records back; None if any of them does not read. */
  function ReadBack(records: seq<FieldMap>): Option<seq<Airplane>>
    decreases |records|
  {
    if |records| == 0 then Some([])
    else
      match (FromFieldMap(records[0]), ReadBack(records[1..]))
      case (Some(a), Some(rest)) => Some([a] + rest)
      case _ => None
  }

  /** Reading a written payload back yields the snapshot it was made from. */
  lemma {:induction false} PayloadRoundTrip(planes: seq<Airplane>)
    ensures ReadBack(Payload(planes)) == Some(planes)
    decreases |planes|
  {
    if |planes| > 0 {
      PayloadRoundTrip(planes[1..]);
      assert Payload(planes)[1..] == Payload(planes[1..]);
      assert [planes[0]] + planes[1..] == planes;
    }
  }

  // ---------------------------------------------------------------------
  // One cycle
  // ---------------------------------------------------------------------

  /** What a cycle decides to do with its snapshot. */
  datatype Action =
    | NothingToSave
    | Write(path: string, records: seq<FieldMap>)

  /**
   An empty snapshot is only logged; a non-empty one leads to one write of
   its records, in order, to the path named after the cycle's start.
   */
  function Decide(config: Config, start: Naming.Timestamp, planes: seq<Airplane>): (a: Action)
    ensures a.NothingToSave? <==> |planes| == 0
    ensures a.Write? ==> ParsePath(config.directory, a.path) == Some(Naming.Truncate(start))
    ensures a.Write? ==> |a.records| == |planes| && ReadBack(a.records) == Some(planes)
    ensures a.Write? ==> a.records == Payload(planes)
  {
    if |planes| == 0 then NothingToSave
    else
      CachePathRoundTrip(config, start);
      PayloadRoundTrip(planes);
      Write(CachePath(config, start), Payload(planes))
  }

  /**
   How the write attempt ended: the file was written, `open` or `json.dump`
   raised an IOError (caught beside the write), or some other exception
   reached the cycle-level handler.
   */
  datatype WriteResult = Written | IOFailure | OtherFailure

  /** One event of a run: a cycle with its start time, fetched response and write result, or an interrupt. */
  datatype Event =
    | Cycle(start: Naming.Timestamp, response: Response, write: WriteResult)
    | Interrupt

  /** What a cycle logged, and the file it left behind. */
  datatype Outcome =
    | NoData
    | Saved(path: string, records: seq<FieldMap>)
    | WriteError(path: string)
    | Unexpected

  /** The snapshot fetched in a cycle did not raise and is not empty. */
  predicate HasSnapshot(response: Response) {
    GetAirplanes(response).Success? && |GetAirplanes(response).value| > 0
  }

  /**
   One pass through the body of the loop: fetch, then decide, then attempt
   the write. An exception escaping the fetch, or a non-IOError from the
   write, lands in the cycle-level handler and is logged as Unexpected.
   */
  function RunCycle(config: Config, start: Naming.Timestamp, response: Response, write: WriteResult): (o: Outcome)
    ensures o.NoData? <==> GetAirplanes(response) == Success([])
    ensures o.Saved? <==> HasSnapshot(response) && write.Written?
    ensures o.WriteError? <==> HasSnapshot(response) && write.IOFailure?
    ensures o.Saved? ==>
              && o.path == CachePath(config, start)
              && ReadBack(o.records) == Some(GetAirplanes(response).value)
              && o.records == Payload(GetAirplanes(response).value)
  {
    match GetAirplanes(response)
    case Failure(_) => Unexpected
    case Success(planes) =>
      match Decide(config, start, planes)
      case NothingToSave => NoData
      case Write(path, records) =>
        match write
        case Written => Saved(path, records)
        case IOFailure => WriteError(path)
        case OtherFailure => Unexpected
  }

  /** The outcome of a cycle event. */
  function Run(config: Config, e: Event): Outcome
    requires e.Cycle?
  {
    RunCycle(config, e.start, e.response, e.write)
  }

  // ---------------------------------------------------------------------
  // The cache directory
  // ---------------------------------------------------------------------

  /** Event outcome `o` left a file at `path`. */
  predicate SavedTo(o: Outcome, path: string) {
    o.Saved? && o.path == path
  }

  /**
   The files a sequence of cycle outcomes leaves in the cache directory,
   starting from no files: each saved outcome writes its path, replacing an
   earlier file of the same name.
   */
  function FilesOf(log: seq<Outcome>): map<string, seq<FieldMap>>
    decreases |log|
  {
    if |log| == 0 then map[]
    else
      var files := FilesOf(log[..|log| - 1]);
      var o := log[|log| - 1];
      if o.Saved? then files[o.path := o.records] else files
  }

  /** A path holds a file exactly when some outcome saved to it. */
  lemma {:induction false} FilesOfDomain(log: seq<Outcome>, path: string)
    ensures path in FilesOf(log) <==> exists k :: 0 <= k < |log| && SavedTo(log[k], path)
    decreases |log|
  {
    if |log| > 0 {
      var init := log[..|log| - 1];
      FilesOfDomain(init, path);
      if path in FilesOf(log) && !SavedTo(log[|log| - 1], path) {
        var k :| 0 <= k < |init| && SavedTo(init[k], path);
        assert log[k] == init[k];
      }
      if exists k :: 0 <= k < |log| && SavedTo(log[k], path) {
        var k :| 0 <= k < |log| && SavedTo(log[k], path);
        if k < |init| {
          assert SavedTo(init[k], path);
        }
      }
    }
  }

  /** A file holds the records of the last outcome that saved to its path. */
  lemma {:induction false} FilesOfContents(log: seq<Outcome>, path: string, k: nat)
    requires k < |log| && SavedTo(log[k], path)
    requires forall k' :: k < k' < |log| ==> !SavedTo(log[k'], path)
    ensures path in FilesOf(log) && FilesOf(log)[path] == log[k].records
    decreases |log|
  {
    var init := log[..|log| - 1];
    if k < |init| {
      assert forall k' :: k < k' < |init| ==> init[k'] == log[k'];
      FilesOfContents(init, path, k);
    }
  }

  // ---------------------------------------------------------------------
  // The loop
  // ---------------------------------------------------------------------

  /** The outcome logged by each cycle so far, and whether an interrupt ended the loop. */
  datatype State = State(log: seq<Outcome>, stopped: bool)

  /** The cache files a loop state has written. */
  function Files(s: State): map<string, seq<FieldMap>> {
    FilesOf(s.log)
  }

  function Step(config: Config, s: State, e: Event): State {
    if s.stopped then s
    else
      match e
      case Interrupt => s.(stopped := true)
      case Cycle(start, response, write) => State(s.log + [RunCycle(config, start, response, write)], false)
  }

  /**
   The `while True` loop over a trace of events, from an empty cache. Every
   cycle before the first interrupt runs and logs its outcome, whatever went
   wrong in the cycles before it; the interrupt ends the loop.
   */
  function Loop(config: Config, trace: seq<Event>): (s: State)
    ensures |s.log| <= |trace|
    ensures forall k :: 0 <= k < |s.log| ==> trace[k].Cycle? && s.log[k] == Run(config, trace[k])
    ensures !s.stopped ==> |s.log| == |trace|
    ensures s.stopped ==> |s.log| < |trace| && trace[|s.log|].Interrupt?
    decreases |trace|
  {
    if |trace| == 0 then State([], false)
    else Step(config, Loop(config, trace[..|trace| - 1]), trace[|trace| - 1])
  }

  /** Event `k` of the trace is a cycle that runs: no interrupt comes before it. */
  predicate Reached(trace: seq<Event>, k: nat) {
    k < |trace| && forall k' :: 0 <= k' <= k ==> trace[k'].Cycle?
  }

  /** Event `e` is a cycle that fetched records and wrote them to `path`. */
  predicate WritesFile(config: Config, e: Event, path: string) {
    e.Cycle? && e.write.Written? && HasSnapshot(e.response) && CachePath(config, e.start) == path
  }

  /** The cycles the loop runs are exactly those before the first interrupt. */
  lemma LoopReaches(config: Config, trace: seq<Event>, k: nat)
    ensures k < |Loop(config, trace).log| <==> Reached(trace, k)
  {
  }

  /** The loop ends stopped exactly when the trace holds an interrupt. */
  lemma LoopStopped(config: Config, trace: seq<Event>)
    ensures Loop(config, trace).stopped <==> Interrupt in trace
  {
    if Interrupt in trace {
      var k :| 0 <= k < |trace| && trace[k] == Interrupt;
      assert !Reached(trace, k);
      LoopReaches(config, trace, k);
    }
  }

  /** A file exists after the loop exactly when some cycle that ran wrote it. */
  lemma LoopFiles(config: Config, trace: seq<Event>, path: string)
    ensures var s := Loop(config, trace);
      path in Files(s) <==> exists k :: 0 <= k < |s.log| && WritesFile(config, trace[k], path)
  {
    var s := Loop(config, trace);
    FilesOfDomain(s.log, path);
    assert forall k :: 0 <= k < |s.log| ==> (SavedTo(s.log[k], path) <==> WritesFile(config, trace[k], path));
  }

  /** A file reads back as the snapshot of the last cycle that wrote it. */
  lemma LoopFileContents(config: Config, trace: seq<Event>, path: string, k: nat)
    requires k < |Loop(config, trace).log| && WritesFile(config, trace[k], path)
    requires forall k' :: k < k' < |Loop(config, trace).log| ==> !WritesFile(config, trace[k'], path)
    ensures path in Files(Loop(config, trace))
    ensures ReadBack(Files(Loop(config, trace))[path]) == Some(GetAirplanes(trace[k].response).value)
    ensures Files(Loop(config, trace))[path] == Payload(GetAirplanes(trace[k].response).value)
  {
    var s := Loop(config, trace);
    assert forall k' :: 0 <= k' < |s.log| ==> (SavedTo(s.log[k'], path) <==> WritesFile(config, trace[k'], path));
    FilesOfContents(s.log, path, k);
  }

  /** After an interrupt nothing more happens, whatever events follow. */
  lemma {:induction false} InterruptStops(config: Config, trace: seq<Event>, rest: seq<Event>)
    requires Interrupt in trace
    ensures Loop(config, trace + rest) == Loop(config, trace)
    decreases |rest|
  {
    LoopStopped(config, trace);
    if |rest| > 0 {
      var init := rest[..|rest| - 1];
      InterruptStops(config, trace, init);
      assert (trace + rest)[..|trace + rest| - 1] == trace + init;
      assert (trace + rest)[|trace + rest| - 1] == rest[|rest| - 1];
      assert Loop(config, trace + rest) == Step(config, Loop(config, trace + init), rest[|rest| - 1]);
    } else {
      assert trace + rest == trace;
    }
  }

  /**
   A failed cycle does not end the loop: when no interrupt occurs, every
   cycle runs and logs its outcome, even after cycles whose fetch raised or
   whose write failed.
   */
  lemma Resilience(config: Config, trace: seq<Event>)
    requires forall k :: 0 <= k < |trace| ==> trace[k].Cycle?
    ensures !Loop(config, trace).stopped
    ensures |Loop(config, trace).log| == |trace|
  {
  }

  // ---------------------------------------------------------------------
  // The whole run
  // ---------------------------------------------------------------------

  /** A run either gives up at directory setup or enters the loop. */
  datatype Session = SetupFailed | Ran(final: State)

  /**
   `run_periodic_fetch` with `setupOk` telling whether `os.makedirs`
   succeeded: if it did not, no cycle runs; otherwise the loop runs until
   the first interrupt in the trace, if any.
   */
  function RunPeriodicFetch(config: Config, setupOk: bool, trace: seq<Event>): (r: Session)
    ensures r.SetupFailed? <==> !setupOk
    ensures r.Ran? ==> (r.final.stopped <==> Interrupt in trace)
  {
    if !setupOk then SetupFailed
    else
      LoopStopped(config, trace);
      Ran(Loop(config, trace))
  }

  /**
   The files a run leaves are exactly the cache paths of the cycles that ran
   before any interrupt, fetched a non-empty snapshot and wrote it
   successfully; none if the directory could not be set up.
   */
  lemma SessionFiles(config: Config, setupOk: bool, trace: seq<Event>, path: string)
    ensures var r := RunPeriodicFetch(config, setupOk, trace);
      (r.Ran? && path in Files(r.final)) <==>
        (setupOk && exists k :: 0 <= k < |trace| && Reached(trace, k) && WritesFile(config, trace[k], path))
  {
    if setupOk {
      var s := Loop(config, trace);
      LoopFiles(config, trace, path);
      if path in Files(s) {
        var k :| 0 <= k < |s.log| && WritesFile(config, trace[k], path);
        LoopReaches(config, trace, k);
      }
      if exists k :: 0 <= k < |trace| && Reached(trace, k) && WritesFile(config, trace[k], path) {
        var k :| 0 <= k < |trace| && Reached(trace, k) && WritesFile(config, trace[k], path);
        LoopReaches(config, trace, k);
      }
    }
  }
}
