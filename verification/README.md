# Airplane feed cacher — a Dafny model

The system polls a bulk aircraft-state feed (OpenSky's `states/all`) and
caches each snapshot as a JSON file named after the time the cycle started.
This project models its two pieces of logic and proves properties of them:

- **the snapshot normaliser** (`get_airplanes`): the decoded response becomes a
  list of `Airplane` records. Only state vectors whose longitude (index 5) and
  latitude (index 6) are both non-null are kept. Each record is tagged
  `airplane_<i>`, where `i` is the vector's position in the response;
- **the caching loop** (`run_periodic_fetch`): each cycle either writes nothing
  (empty snapshot) or attempts one write of
  `flight_data_<YYYY-MM-DD_HH-MM-SS>.json` under the cache directory,
  holding one field map per record. Failures inside a cycle are logged and
  the loop continues. A failed directory setup, or an interrupt, ends it.

Modules:

| module | file | contents |
|---|---|---|
| `Wrappers` | wrappers.dfy | `Option`, `Result` |
| `Decimal` | decimal.dfy | `str(int)` rendering, zero-filled `strftime` fields, their parser |
| `Fetcher` | fetcher.dfy | JSON values, state vectors, `Airplane`, the response, `GetAirplanes` |
| `Naming` | naming.dfy | `datetime` values, the cache file name and its parser |
| `Caching` | caching.dfy | configuration, paths, serialisation, one cycle, the loop, the run |

The HTTP exchange is an input value (`Fetcher.Response`). The loop is a fold
(`Caching.Loop`) over a trace of events. Each event is either a cycle (its
start time, the response it fetched, how its write ended) or an interrupt.
The log lines become a list of per-cycle `Outcome`s. The cache directory is
a map from path to records, computed from that list (`Caching.FilesOf`).

### Behaviour of the code worth knowing

- `get_airplanes` only catches `RequestException`
  (airplane_data_fetcher.py:43). An IndexError from a short state vector, or
  an AttributeError from a body that is not a JSON object, escapes to the
  loop's generic handler (flight_caching.py:74-77), so that cycle writes
  nothing. `Fetcher.GetAirplanes` returns these as `Failure`, and
  `Caching.RunCycle` turns them into `Unexpected`.
- The test `state[5] is not None and state[6] is not None` short-circuits.
  So a 6-field vector with a null longitude is dropped without error. Only a
  6-field vector with a longitude present raises, as does any vector of at
  most 5 fields (`Fetcher.ShortEntryBoundary`).
- `open(filepath, 'w')` truncates the file before `json.dump` runs. So a
  write that fails part-way can leave a partial file (see Left out).

## Model

| member | source | states |
|---|---|---|
| Fetcher.PositionTest | airplane_data_fetcher.py:32 | the coordinate test raises exactly for a vector of at most 5 fields, or of 6 fields with a longitude present; it keeps a vector exactly when it has index 6 and both coordinates are non-null |
| Fetcher.KeptIndices | airplane_data_fetcher.py:31-32 | reference description of the filter: every listed position is in range and kept, positions strictly ascend, every kept position is listed, and there are no more of them than entries (the reference the scan is checked against) |
| Fetcher.ScanFailure | airplane_data_fetcher.py:31-32 | the enumerate loop raises iff some entry's test raises, and the IndexError is raised at the first such entry (about `Scan`) |
| Fetcher.ScanSuccess | airplane_data_fetcher.py:31-39 | a loop that raises nothing returns one record per kept position, in input order, built from that position's entry (about `Scan` and `Record`) |
| Fetcher.GetAirplanes | airplane_data_fetcher.py:22-45 | a failed request or absent/null/empty `states` gives the empty list; a non-object body lets an AttributeError escape; an IndexError escapes iff some vector's test raises, and it names the first such vector; otherwise the result is the selection of kept vectors |
| Fetcher.NoDataYieldsEmpty | airplane_data_fetcher.py:22-28 | a failed request, or a body whose `states` is missing, null or empty, yields the empty list and raises nothing (about `GetAirplanes`) |
| Fetcher.SelectedSound | airplane_data_fetcher.py:32-38 | every output record is the record of some kept input vector: latitude from index 6, longitude from index 5, id naming that vector's position (about `Selected`, the result of `GetAirplanes`, and `Record`) |
| Fetcher.SelectedComplete | airplane_data_fetcher.py:31-39 | every kept vector (a coordinate equal to 0 counts as present) yields a record, and it is the only record carrying that vector's id (about `Selected`, the result of `GetAirplanes`, and `Record`) |
| Fetcher.SelectedOrder | airplane_data_fetcher.py:31-39 | the output is no longer than the input; every id decodes to an input position; these positions strictly increase along the output, so ids are pairwise distinct (about `Selected`, the result of `GetAirplanes`, and `ParseTag`) |
| Fetcher.TagRoundTrip | airplane_data_fetcher.py:35 | an id `airplane_<i>` decodes back to `i`, and a string decodes to `i` only if it is exactly that id (about `Tag` and its inverse `ParseTag`) |
| Fetcher.TagInjective | airplane_data_fetcher.py:35 | two positions get the same id only if they are equal (about `Tag`) |
| Fetcher.ShortEntryBoundary | airplane_data_fetcher.py:32 | a 6-field vector raises exactly when its longitude is present, and is never kept (about `Crashes` and `Kept`, the two outcomes of `PositionTest`) |
| Fetcher.Example | airplane_data_fetcher.py:30-39 | two vectors, the second with a null longitude, yield the single record `airplane_0` with latitude 45.1 and longitude 12.5 (about `GetAirplanes`) |
| Decimal.Show | airplane_data_fetcher.py:35 | `str(i)` is a non-empty digit string without a leading zero, starting with 0 only for 0 |
| Decimal.ShowParse | airplane_data_fetcher.py:35 | parsing `str(i)` gives back `i` (about `Show` and `Parse`) |
| Decimal.ParseShow | airplane_data_fetcher.py:35 | every canonical digit string is `str` of the number it parses to (about `Show` and `Parse`) |
| Decimal.ShowInjective | airplane_data_fetcher.py:35 | distinct numbers render differently (about `Show`) |
| Decimal.PaddedParse | flight_caching.py:53 | a zero-filled field of width w parses back to its number when the number has at most w digits (about `Padded` and `Parse`) |
| Naming.FileNameRoundTrip | flight_caching.py:53 | the file name of a cycle reads back as its start time at second resolution (about `FileName`, built on `Stamp`, and its inverse `ParseFileName`) |
| Naming.FileNameSecondResolution | flight_caching.py:41-53 | two start times give the same file name iff they agree down to the second (about `FileName`) |
| Naming.FileNameExample | flight_caching.py:53 | 2024-02-03 09:05:07.123456 gives `flight_data_2024-02-03_09-05-07.json` (about `FileName` and `Stamp`) |
| Caching.CachePathRoundTrip | flight_caching.py:53-54 | a cycle's path lies inside the cache directory and reads back as the cycle's start second (about `CachePath`, via `Join`, and `ParsePath`) |
| Caching.CachePathSecondResolution | flight_caching.py:53-54 | two cycles write the same path iff they started in the same second (about `CachePath`) |
| Caching.ToFieldMap | flight_caching.py:50 | `vars(plane)` has exactly the keys `id`, `latitude`, `longitude`, in that order, and reads back as the record |
| Caching.Payload | flight_caching.py:50 | one field map per record, same length; each map has exactly the keys `id`, `latitude`, `longitude` in that order and reads back as the record at the same position |
| Caching.PayloadRoundTrip | flight_caching.py:50-59 | reading a written payload back yields exactly the snapshot it was made from (about `Payload` and `ReadBack`) |
| Caching.Decide | flight_caching.py:47-65 | an empty snapshot leads to no write; a non-empty one to one write whose path names the cycle's start second and whose records are the snapshot's field maps (exactly three keys each), reading back as the snapshot |
| Caching.RunCycle | flight_caching.py:41-77 | a cycle logs "no data" iff the fetch returned the empty list; it saves a file iff the fetch returned records and the write succeeded, with that path and with the snapshot's field maps as its payload; a write IOError is logged iff records were fetched and the write raised it |
| Caching.FilesOfDomain | flight_caching.py:57-59 | a path holds a file exactly when some logged cycle saved to it (about `FilesOf`) |
| Caching.FilesOfContents | flight_caching.py:57-59 | `open(filepath, 'w')` replaces: a file holds the records of the last cycle that saved to its path (about `FilesOf`) |
| Caching.Loop | flight_caching.py:38-77 | every event before the first interrupt is a cycle that runs and logs its outcome; the loop is stopped only at an interrupt; without one, every cycle runs (a fold of `Step`) |
| Caching.LoopReaches | flight_caching.py:71-77 | the cycles that run are exactly those with no interrupt at or before them (about `Loop`) |
| Caching.LoopStopped | flight_caching.py:71-73 | the loop ends stopped iff the trace holds an interrupt (about `Loop`) |
| Caching.LoopFiles | flight_caching.py:47-62 | a path holds a file after the loop iff some cycle that ran fetched records, wrote them successfully and was named that path (about `Loop` and `Files`) |
| Caching.LoopFileContents | flight_caching.py:57-59 | a file holds the field maps of the last cycle that wrote it (exactly three keys each) and reads back as that cycle's snapshot (about `Loop` and `Files`) |
| Caching.InterruptStops | flight_caching.py:71-73 | events after an interrupt change nothing (about `Loop` and `Step`) |
| Caching.Resilience | flight_caching.py:74-77 | with no interrupt, every cycle runs, including those after a failed fetch or write (about `Loop`) |
| Caching.RunPeriodicFetch | flight_caching.py:32-36 | the run aborts before any cycle iff directory setup fails; otherwise it ends stopped iff the trace holds an interrupt |
| Caching.SessionFiles | flight_caching.py:32-77 | the files a run leaves are exactly the cache paths of the cycles that ran before any interrupt, fetched records and wrote them; none if setup failed (about `RunPeriodicFetch` and `Files`) |

## Left out

- The HTTP GET, `raise_for_status` and `response.json()` are library calls.
  Their result is the input `Fetcher.Response`: a failed request (transport
  error, rejected status or undecodable body), a body that is not an object,
  or an object with its `states`. Counting an undecodable body as a failed
  request assumes requests 2.27 or later, where `response.json()` raises a
  `RequestException`. Earlier versions raise a plain `ValueError`, which
  would escape to the loop's handler as `Unexpected`.
- A `states` value that is truthy but not a list, and state vectors that are
  not lists, are not modelled. The model takes `states` as a list of lists;
  a missing, null or other falsy value is `None`.
- File-system effects are reduced to "a write of these records to this path
  succeeded or failed". This leaves out the byte layout of `json.dump(...,
  indent=4)`. It also leaves out files already in the directory: the model's
  map holds the files this run wrote.
- Caching.LoopFiles, Caching.LoopFileContents, Caching.SessionFiles: a write
  that fails after `open` succeeded leaves an empty or partial file in the
  real program, and truncates an earlier file of the same second. The model
  treats every failed write as leaving the cache unchanged. So these three
  say nothing about such partial files.
- `datetime.now()` becomes the `start` field of each cycle. `time.sleep` and
  the 60-second interval become "the next event of the trace". The interval
  is kept in `Caching.Config` but nothing depends on it.
- Naming.FileName: `%Y` is modelled as four zero-filled digits. CPython
  releases that pass `%Y` straight to glibc print years below 1000 without
  padding. Releases that pad `%Y` themselves on Linux (the change tracked as
  CPython issue gh-120713) agree with the model.
- All `print` output. The `Outcome` log stands in for the per-cycle messages.
- KeyboardInterrupt appears only as the `Interrupt` event. An interrupt during
  the error handler's sleep (flight_caching.py:77) escapes the function
  instead of reaching `break`; both end the run, and the model does not
  distinguish them.
- Caching.Join models POSIX `os.path.join` (posixpath) only. Windows'
  `ntpath` uses `\` as separator and has drive and UNC rules that are not
  modelled.
- Coordinates are JSON values that are never computed with, so the model
  does not give floating point any meaning.
