# Snappy taxi-event readers and format sniffer, in Dafny

This project models the logic at the centre of the Snappy decompression
scripts: the byte-signature file-format sniffer, the newline normalisation of
an event line, and the per-object ingestion done by the two multi-threaded
readers. A reader flattens an object key into an output file name, writes
every parsed line newline-terminated, counts it, flushes periodically, widens
the process-wide earliest/latest timestamp bounds, and adds its count to the
process-wide total.

Modules (one file each):

- `Wrappers` (`wrappers.dfy`): `Option` and `Result`.
- `FileFormatDetection` (`format_detection.dfy`): the detection record and its
  category predicates, the signature table, the three byte windows and the
  priority-ordered matcher `Detect`, with the properties of the priority order.
- `StreamSniffing` (`stream_sniffing.dfy`): a file-like `ByteSource` class
  (bytes, position, read counter). On it run the window reader
  `ReadRanges`, `SniffStream` and the path-based `SniffFormat`.
- `Events` (`event.dfy`): `Event` construction and `str`.
- `Ingest` (`ingest.dfy`): what both readers share:
  - the outcome of handling one line;
  - the `Stats` class (the lock-guarded globals) and the `OutputFile` class;
  - the per-line loop `IngestLines`, proved against fold functions
    (`Written`, `Stamps`, `Earliest`, `Latest`, `FlushMarks`);
  - the character removal behind the file names.
- `TaxiEventReaderMTPool` (`taxi_event_reader_mt_pool.dfy`): the pool reader.
  Its `process_object` strips `/` and `\`, flushes every 10000 lines and once
  more in `finally`. Its `main` picks the worker count and collects outputs.
- `TaxiEventReaderMT` (`taxi_event_reader_mt.dfy`): the earlier reader.
  It strips only `/`, flushes every 50000 lines, and has no final flush.

Modelling choices:

- Bytes are `bv8`, text is `string` and confidences are exact `real`s.
- The line parser is abstract: each line comes as a `LineOutcome`. A line is
  `Malformed` (a `ValueError`), `Failed` (any other exception before the
  bounds update), `Parsed` with an optional timestamp, or `Unwritable`
  (parsed and its timestamp folded in, but the write raised).
- A download is a parameter: it failed, or it yields its lines' outcomes.
  The error the end of an object's `with open(...)` block raises (a failing
  final `flush()` or close) is a parameter too, and so is the elapsed
  processing time. An object whose block raises has widened the bounds by
  its timestamps but adds nothing to the totals or the outputs.
- A stream's read failure is a parameter: the read call with a given number
  raises with a given message.
- The readers' threads are modelled as running one object after another.
- `sniff_stream` restores the stream position best-effort, and only once all
  its reads succeeded. A read that raises leaves the stream where that read
  stopped, and `SniffStream` states that position and the number of reads.

Where the code and its documentation disagree, the model follows the code:

- The comment on `safe_filename_from_key` in `Taxi_Event_Reader_MT.py`
  gives the name for its example key with `_` where two separators were.
  The code simply drops every `/`. `TaxiEventReaderMT.DocumentedKey`
  derives the name the code produces and shows that it differs from the
  comment's.

## Model

| member | source | states |
|---|---|---|
| `FileFormatDetection.FirstStartMatch` | FileFormatDetection.py:150-154 | the chosen name is in the list and its magic starts the head; no name is chosen iff no listed format's magic starts the head |
| `FileFormatDetection.Detect` | FileFormatDetection.py:137-167 | the result is one of the 12 names, with confidence 1.0, 0.95, 0.9 or 0.0; it is "unknown" iff the confidence is 0.0; it is "parquet" iff PAR1 is at both ends; a start-only result implies no Parquet match and its own magic at the head |
| `FileFormatDetection.NamesAreLowerCase` | FileFormatDetection.py:17-34 | every name the detector returns is unchanged by `lower()` |
| `FileFormatDetection.CategoriesPartition` | FileFormatDetection.py:17-34 | every detection other than "unknown" is known and in exactly one of compressed/archive/columnar; "unknown" is in none and not known |
| `FileFormatDetection.StartMagicFirstByte` | FileFormatDetection.py:59-91 | every magic of the k-th start-only format begins with that format's own first byte |
| `FileFormatDetection.StartMagicsDisjoint` | FileFormatDetection.py:150-154 | no head matches the magics of two different start-only formats, so the declared order never has to break a tie |
| `FileFormatDetection.StartOnlyMatch` | FileFormatDetection.py:150-154 | the start-only stage picks the k-th format iff the head starts with one of its magics |
| `FileFormatDetection.PriorityOrder` | FileFormatDetection.py:145-154 | the result is parquet with confidence 1.0 and the parquet evidence iff the Parquet test holds; it is the k-th start-only format with confidence 1.0 and that format's evidence iff Parquet failed and the head starts with one of its magics |
| `FileFormatDetection.FallbackOrder` | FileFormatDetection.py:156-167 | the result is tar (0.95, its evidence) iff Parquet and every start-only format failed and the probe matches; orc (0.9) iff also tar failed and the tail matches; unknown (0.0, "No decisive signature found.") iff every stage failed |
| `FileFormatDetection.StartsWithAny` | FileFormatDetection.py:139-140 | `any(...startswith...)` is false for no patterns; when true, the buffer is one of the patterns followed by more bytes |
| `FileFormatDetection.EndsWithAny` | FileFormatDetection.py:142-143 | `any(...endswith...)` is false for no patterns; when true, the buffer is more bytes followed by one of the patterns |
| `FileFormatDetection.ContainsAny` | FileFormatDetection.py:163 | `any(p in buf ...)` is false for no patterns; when true, some pattern fits in the buffer |
| `FileFormatDetection.ParquetMatch` | FileFormatDetection.py:146-147 | the Parquet test holds only when the head starts with PAR1 and the tail ends with it |
| `FileFormatDetection.TarMatch` | FileFormatDetection.py:157-158 | the tar test holds only when the probe has at least 6 bytes starting "ustar", so never on an empty probe |
| `FileFormatDetection.OrcMatch` | FileFormatDetection.py:162-163 | the ORC test holds only when the tail has at least the 3 bytes of "ORC" |
| `FileFormatDetection.SingleMagic` | FileFormatDetection.py:139-143 | `any(...)` over a one-pattern list matches iff that pattern does |
| `FileFormatDetection.Lower` | FileFormatDetection.py:19-34 | `lower()`: same length, each 'A'..'Z' becomes the matching 'a'..'z', every other character kept |
| `FileFormatDetection.Detection.IsKnown` | FileFormatDetection.py:17-19 | a known detection is not "unknown" and has positive confidence |
| `FileFormatDetection.Detection.IsCompressed` | FileFormatDetection.py:21-26 | a compressed format is neither an archive nor columnar |
| `FileFormatDetection.Detection.IsArchive` | FileFormatDetection.py:28-30 | an archive format is neither compressed nor columnar |
| `FileFormatDetection.Detection.IsColumnar` | FileFormatDetection.py:32-34 | a columnar format is neither compressed nor an archive |
| `FileFormatDetection.RangesOf` | FileFormatDetection.py:118-132 | the head is the first min(64, n) bytes, the tail the last min(64, n), and the probe is empty iff n < 265, otherwise the 8 bytes at offset 257 |
| `FileFormatDetection.DetectBlob` | FileFormatDetection.py:111-167 | detection of a whole blob; a blob shorter than 265 bytes is never "tar" |
| `FileFormatDetection.FirstStartMatchIsFirst` | FileFormatDetection.py:150-154 | the chosen name is the first in the list whose magic starts the head: every earlier name's magic fails |
| `FileFormatDetection.StartOnlyWins` | FileFormatDetection.py:145-154 | with no Parquet match, a head starting with the k-th start-only format's magic is detected as that format with confidence 1.0 and its evidence |
| `FileFormatDetection.GzipMagicWins` | FileFormatDetection.py:59-62 | any blob starting 1f 8b is "gzip" with confidence 1.0 and the gzip evidence, whatever its tail or probe hold |
| `FileFormatDetection.ParquetNeedsBothEnds` | FileFormatDetection.py:145-148 | a blob is "parquet" iff it both starts and ends with PAR1 |
| `FileFormatDetection.OrcOnlyAsFallback` | FileFormatDetection.py:161-164 | "orc" iff no earlier stage matched and ORC occurs in the last 16 tail bytes |
| `FileFormatDetection.LastN` | FileFormatDetection.py:163 | `tail[-16:]` is the last min(16, n) bytes |
| `StreamSniffing.Window` | FileFormatDetection.py:119 | `read(n)` from the position returns the next min(n, remaining) bytes of the data, in place, and nothing past the end |
| `StreamSniffing.ByteSource.constructor` | FileFormatDetection.py:217 | a fresh buffer over the data, positioned at 0 |
| `StreamSniffing.ByteSource.Tell` | FileFormatDetection.py:202 | returns the position |
| `StreamSniffing.ByteSource.SeekStart` | FileFormatDetection.py:118 | the position becomes the offset |
| `StreamSniffing.ByteSource.SeekEnd` | FileFormatDetection.py:122-123 | the position and the returned size are the data length |
| `StreamSniffing.ByteSource.Read` | FileFormatDetection.py:119 | the numbered failing call raises and leaves the position; any other call returns the bytes from the position (at most n) and advances past them |
| `StreamSniffing.ByteSource.ReadAll` | FileFormatDetection.py:216 | as Read, for everything up to the end |
| `StreamSniffing.FailedStage` | FileFormatDetection.py:117-132 | which of head, tail or probe read raises; the probe read happens only when the blob has at least 265 bytes |
| `StreamSniffing.ReadRanges` | FileFormatDetection.py:111-134 | when no read raises, returns the three windows of the data and leaves the position after the last read; otherwise returns that read's error, positioned where the read stopped, after one read per stage reached |
| `StreamSniffing.StreamError` | FileFormatDetection.py:220-221 | the error result is "unknown" with confidence 0.0, not known, and its evidence ends with the exception's message |
| `StreamSniffing.SniffStream` | FileFormatDetection.py:192-223 | never raises: a seekable stream gives the blob's detection and its position is restored, or gives "Stream read error: ..." with confidence 0.0; a non-seekable stream gives the detection of its remaining bytes, or the error; the read counter grows by one per read made (two or three windows, or up to the failing one; one `read()` when not seekable) |
| `StreamSniffing.SniffFormat` | FileFormatDetection.py:173-186 | a missing file gives "File not found.", an open or read error gives "I/O error: ..." (both "unknown", 0.0), otherwise the file's detection |
| `Events.Terminate` | Event.py:5-9 | the result ends with a newline, starts with the input, and is one character longer iff the input lacked the newline |
| `Events.NewEvent` | Event.py:4-9 | the payload ends with a newline, starts with the input, and equals the input iff the input already ended with one |
| `Events.NeverDoubleTerminated` | Event.py:5-9 | a newline-terminated payload is kept as is; any other gains exactly "\n" and one character |
| `Events.NormalisationIdempotent` | Event.py:4-9 | building an event from an event's payload gives the same event |
| `Events.TerminateIsShortest` | Event.py:5-9 | no newline-terminated string that starts with the input is shorter than the payload |
| `Events.ToString` | Event.py:14-15 | `str` of an event is newline-terminated |
| `Events.StrOfNewEvent` | Event.py:14-15 | `str` of an event is its newline-terminated payload |
| `Ingest.Stats.constructor` | Taxi_Event_Reader_MT_Pool.py:37-41 | zero totals and no bounds |
| `Ingest.Stats.Observe` | Taxi_Event_Reader_MT_Pool.py:151-156 | keeps the bounds set together and uncrossed; afterwards earliest <= ts <= latest, earliest only lowered and latest only raised |
| `Ingest.Stats.Record` | Taxi_Event_Reader_MT_Pool.py:182-184 | the event total grows by exactly the object's count and the time total by the clamped elapsed time |
| `Ingest.OutputFile.Open` | Taxi_Event_Reader_MT_Pool.py:142 | opening in "w" mode gives an empty, open file at the path, whatever it held before |
| `Ingest.OutputFile.Write` | Taxi_Event_Reader_MT_Pool.py:161 | appends the line |
| `Ingest.OutputFile.Flush` | Taxi_Event_Reader_MT_Pool.py:165 | records a flush of all lines written so far |
| `Ingest.OutputFile.Close` | Taxi_Event_Reader_MT_Pool.py:142-174 | leaving the `with` block closes the file |
| `Ingest.IngestLines` | Taxi_Event_Reader_MT_Pool.py:144-171 | the file gains exactly the parsed lines, newline-terminated and in order; the count equals their number; flushes happen exactly at the multiples of the interval; the bounds are those folded over every timestamp that reached the update |
| `Ingest.HandleLine` | Taxi_Event_Reader_MT_Pool.py:145-171 | one line handled after the lines already done keeps the loop's invariant: file, flushes, count and bounds are what the lines done so far, this one included, add to the starting state |
| `Ingest.ObserveLine` | Taxi_Event_Reader_MT_Pool.py:148-156 | the bounds are widened by the line's timestamp when it was parsed, also when the write then raises, and left alone otherwise |
| `Ingest.WriteLine` | Taxi_Event_Reader_MT_Pool.py:159-165 | a parsed line is appended newline-terminated and counted, with a flush recording the line count when the count reaches a multiple of the interval; any other line changes nothing |
| `Ingest.AccountsStep` | Taxi_Event_Reader_MT_Pool.py:144-171 | one line's effect on top of a state accounted for by the lines done gives the state accounted for by those lines and this one |
| `Ingest.FlushAppend` | Taxi_Event_Reader_MT_Pool.py:163-165 | counting the n-th line adds a flush mark exactly when n is a multiple of the interval |
| `Ingest.LoopStep` | Taxi_Event_Reader_MT_Pool.py:144 | one more line extends the written lines and the timestamps by that line's share |
| `Ingest.Lowered` | Taxi_Event_Reader_MT_Pool.py:153-154 | the new earliest bound is the smaller of the timestamp and the old bound (the timestamp when there was none) |
| `Ingest.Raised` | Taxi_Event_Reader_MT_Pool.py:155-156 | the new latest bound is the larger of the timestamp and the old bound (the timestamp when there was none) |
| `Ingest.Max0` | Taxi_Event_Reader_MT_Pool.py:179 | `max(0.0, x)`: at least 0.0 and x, and one of them |
| `Ingest.BoundsStep` | Taxi_Event_Reader_MT_Pool.py:153-156 | folding one more timestamp is one more bounds update |
| `Ingest.WrittenTerminated` | Taxi_Event_Reader_MT_Pool.py:159-161 | every written line ends with a newline |
| `Ingest.WrittenAppend` | Taxi_Event_Reader_MT_Pool.py:144-171 | written lines, timestamps and skips of a concatenation are those of its parts in order |
| `Ingest.CountedOrSkipped` | Taxi_Event_Reader_MT_Pool.py:163-171 | every line is either written and counted or skipped; all are counted iff all parsed |
| `Ingest.NothingParsedNothingWritten` | Taxi_Event_Reader_MT_Pool.py:168-171 | when no line parses nothing is written; when all fail before the update the bounds see nothing |
| `Ingest.EarliestIsMinimum` | Taxi_Event_Reader_MT_Pool.py:153-154 | the earliest bound is set iff something was folded, lies below every folded timestamp and the starting bound, and is one of them |
| `Ingest.LatestIsMaximum` | Taxi_Event_Reader_MT_Pool.py:155-156 | the latest bound is set iff something was folded, lies above every folded timestamp and the starting bound, and is one of them |
| `Ingest.BoundsAppend` | Taxi_Event_Reader_MT_Pool.py:151-156 | folding two runs one after the other is folding their concatenation |
| `Ingest.BoundsIgnoreOrder` | Taxi_Event_Reader_MT_Pool.py:151-156 | the bounds depend only on which timestamps arrived, not their order |
| `Ingest.FlushMarksAreMultiples` | Taxi_Event_Reader_MT_Pool.py:163-165 | a flush happens at line count k iff k is a positive multiple of the interval no larger than the count |
| `Ingest.FlushMarksIncrease` | Taxi_Event_Reader_MT_Pool.py:163-165 | the flush points strictly increase |
| `Ingest.Without` | Taxi_Event_Reader_MT_Pool.py:59 | `replace(c, "")`: no c is left, every other character is kept as often as before, and a string without c is unchanged |
| `Ingest.WithoutAppend` | Taxi_Event_Reader_MT_Pool.py:59 | removal distributes over concatenation, so the kept characters keep their order |
| `Ingest.WithoutSingle` | Taxi_Event_Reader_MT_Pool.py:59 | removal from a one-character string |
| `TaxiEventReaderMTPool.SafeFileName` | Taxi_Event_Reader_MT_Pool.py:57-60 | the name ends with the extension, holds no `/` or `\` before it, and holds none at all when the extension has none |
| `TaxiEventReaderMTPool.SafeFileNameKeepsTheRest` | Taxi_Event_Reader_MT_Pool.py:59 | before the extension, every character other than `/` and `\` occurs as often as in the key |
| `TaxiEventReaderMTPool.OutputPath` | Taxi_Event_Reader_MT_Pool.py:136 | the path is the output directory, one `/`, and the key's safe file name with the ".ndjson" extension, which holds no `/` |
| `TaxiEventReaderMTPool.SeparatorsIgnored` | Taxi_Event_Reader_MT_Pool.py:57-60 | inserting a `/` or `\` anywhere in a key does not change its name or path: such keys share and overwrite one file |
| `TaxiEventReaderMTPool.WriteOutput` | Taxi_Event_Reader_MT_Pool.py:142-174 | a fresh file at the path, closed, holds the written lines; it is flushed at each multiple of 10000 and once more at the end unless that final flush raises, in which case the block raises that error; of the statistics only the bounds change, by the lines' timestamps |
| `TaxiEventReaderMTPool.ProcessObject` | Taxi_Event_Reader_MT_Pool.py:116-193 | a failed download raises and changes nothing; otherwise a fresh closed file at the key's path holds the written lines, flushed at each multiple of 10000, and the bounds grow by the lines' timestamps; when the `with` block raises, the object raises with that error and the totals stay; otherwise the file was flushed once more at the end, it returns its path, count and time, and the totals grow by them |
| `TaxiEventReaderMTPool.FinalFlushCoversAll` | Taxi_Event_Reader_MT_Pool.py:173-174 | the last flush sees every written line; the earlier ones are multiples of 10000 |
| `TaxiEventReaderMTPool.WorkerCount` | Taxi_Event_Reader_MT_Pool.py:200-206 | none for an empty listing; otherwise between 1 and both MAX_WORKERS and the object count, and equal to one of them |
| `TaxiEventReaderMTPool.Run` | Taxi_Event_Reader_MT_Pool.py:200-231 | returns early on an empty listing; otherwise collects the path of each completed object in listing order; the totals grow by every completed object's count and time, and the bounds by the timestamps of every object whose download succeeded |
| `TaxiEventReaderMTPool.BatchStep` | Taxi_Event_Reader_MT_Pool.py:217-231 | one more object extends the outputs, totals and timestamps by its share |
| `TaxiEventReaderMTPool.BatchBoundsCover` | Taxi_Event_Reader_MT_Pool.py:151-156 | after a batch, every timestamp of every object whose download succeeded lies within the bounds, also when its `with` block then raised |
| `TaxiEventReaderMTPool.StampsInBatch` | Taxi_Event_Reader_MT_Pool.py:217-225 | the timestamps of an object whose download succeeded are among the batch's |
| `TaxiEventReaderMTPool.TotalCoversEach` | Taxi_Event_Reader_MT_Pool.py:182-184 | the batch total is at least each completed object's count |
| `TaxiEventReaderMTPool.OneOutputPerCompletion` | Taxi_Event_Reader_MT_Pool.py:220-231 | at most one output per object, and one each when every object completes |
| `TaxiEventReaderMTPool.FailedBatchChangesNothing` | Taxi_Event_Reader_MT_Pool.py:227-231 | a batch of failed downloads yields no outputs, no events and no timestamps |
| `TaxiEventReaderMT.SafeFileName` | Taxi_Event_Reader_MT.py:53-60 | the name ends with the extension, holds no `/` before it, keeps every other character of the key as often as the key holds it |
| `TaxiEventReaderMT.BackslashesKept` | Taxi_Event_Reader_MT.py:59 | the name holds exactly the backslashes of the key and the extension |
| `TaxiEventReaderMT.OutputPath` | Taxi_Event_Reader_MT.py:105 | the path is the output directory, one `/`, and the key's safe file name with the ".ndjson" extension, which holds no `/` |
| `TaxiEventReaderMT.SlashIgnored` | Taxi_Event_Reader_MT.py:59 | inserting a `/` anywhere in a key does not change its name |
| `TaxiEventReaderMT.SegmentsRunTogether` | Taxi_Event_Reader_MT.py:59-60 | a key of slash-free segments joined by `/` is named after the segments run together |
| `TaxiEventReaderMT.StemRunsTogether` | Taxi_Event_Reader_MT.py:59 | removing every `/` from slash-free segments joined by `/` runs the segments together |
| `TaxiEventReaderMT.ConcatFive` | Taxi_Event_Reader_MT.py:57 | five segments run together are their plain concatenation |
| `TaxiEventReaderMT.DocumentedNameDiffers` | Taxi_Event_Reader_MT.py:57 | the documented segments run together are 47 characters, so the comment's 49-character name (plus ".ndjson") is not theirs |
| `TaxiEventReaderMT.DocumentedKey` | Taxi_Event_Reader_MT.py:53-60 | the documented key yields its segments run together plus ".ndjson", not the name the comment gives |
| `TaxiEventReaderMT.WriteOutput` | Taxi_Event_Reader_MT.py:110-138 | a fresh file at the path, closed, holds the written lines; it is flushed only at each multiple of 50000; the block raises the close's error when there is one; of the statistics only the bounds change, by the lines' timestamps |
| `TaxiEventReaderMT.ProcessObject` | Taxi_Event_Reader_MT.py:88-148 | a failed download raises and changes nothing; otherwise a fresh closed file at the key's path holds the written lines, flushed only at each multiple of 50000, and the bounds grow by the lines' timestamps; when the close raises, the object raises with that error and the totals stay; otherwise it returns its path, count and time and the totals grow by them |
| `TaxiEventReaderMT.TailLeftToClose` | Taxi_Event_Reader_MT.py:130-132 | with no final flush, when the count is not a multiple of 50000 every flush saw fewer lines than were written; when it is, the last flush saw them all |

## Left out

- The snappy codec (`snappy.stream_decompress`) and all S3 and filesystem
  plumbing are left out: `list_s3_objects`, `download_and_decompress`,
  `os.makedirs`, and the module-level download loop of
  `Taxi_Event_Reader_MT.py` (lines 150-168). A download is a parameter that
  either failed or yields the outcomes of its lines.
- The other scripts (`s3_decompress_snz_s3.py`, `local_decompress_snz_s3.py`,
  `snappy_decompress.py`, `Taxi_Event_Reader.py`) are S3/OS plumbing and are
  not part of this model.
- Concurrency is left out: the thread pool, the `as_completed` and result
  timeouts, `fut.cancel`, `stats_lock` and the SIGINT handler.
  - The lock-guarded updates are sequential updates of a `Stats` object.
  - `TaxiEventReaderMTPool.Run` handles the objects and collects their
    outputs in listing order. The source collects them in completion order.
  - A timed-out future is not modelled.
- Timing and throughput are left out: `time.time()`, `bps`, `thr`,
  `overall_thr`, all logging, and the summary `main` prints at the end.
  The elapsed processing time is a parameter clamped at zero as the source
  does. Float rounding is not modelled: times are exact reals.
- The line parser is kept abstract: `TripEvent`, `json.loads`, `datetime`
  and `raw.decode("unicode_escape")`. Each line arrives as its outcome.
  - As written, `TripEvent`'s initialiser is misspelled, so `ev.timestamp`
    raises in the pool reader.
  - In `Taxi_Event_Reader_MT.py` the name `TripEvent` is bound to the module
    (lines 27 and 33), so the call itself raises.
  - Both make every line that decodes `Failed`. A line whose
    `unicode_escape` decoding raises (a `UnicodeDecodeError`, which is a
    `ValueError`) is `Malformed`. `Ingest.NothingParsedNothingWritten` states
    what follows for both.
- The `sniff_stream` call inside the pool reader's `process_object`
  (lines 130-132) is left out. Its result is only logged, and the stream is
  rewound right after it.
- `Event.__hash__` (SHA-256), `to_byte_buffer`, `summary`, `metadata` and the
  `extra` dictionary of a detection are left out.
- The output file's own buffering is not modelled. `flushLog` records only
  explicit `flush()` calls.
- Opening an output file that cannot be created is not modelled.
- StreamSniffing.SniffStream: does not model a `tell()` or a restoring
  `seek()` that raises, because the byte source's position calls are
  infallible. Only its numbered read can raise.
- StreamSniffing.ByteSource.Read: a source raises at one numbered read call
  at most, not at several.
- FileFormatDetection.FirstStartMatch: its own contract does not say that
  the pick is the first match in the list, only that it is a match and that
  none exists when nothing is picked. `FirstStartMatchIsFirst` states the
  first-match property.
- FileFormatDetection.Lower: folds ASCII letters only, where Python's
  `lower()` folds all of Unicode. This cannot matter for the names the
  detector returns, which are lower-case ASCII.
- Ingest.FlushMarksAreMultiples: characterises which counts are flushed at,
  but does not state how many flushes happen (the count divided by the
  interval).
- TaxiEventReaderMTPool.OutputPath: joins directory and name with `/` as
  `os.path.join` does on POSIX. On Windows the separator is `\`; the
  pool reader's names then still hold no separator, but the MT reader's kept
  backslashes would make extra directory levels.
- TaxiEventReaderMT.OutputPath: joins with `/` as on POSIX as well. On
  Windows `os.path.join` inserts `\`, and the backslashes this reader keeps in
  a name would then make extra directory levels.
- Timestamps are integers. The parser would derive them as
  `datetime.timestamp() * 1000`, a float; float rounding and fractional
  milliseconds are not modelled.
- TaxiEventReaderMTPool.WriteOutput: a given finish error is taken to come
  from the final `flush()`, so no final flush is recorded. A close that
  raises after a successful final flush would leave that mark in the flush
  log; the outcome for the object and the statistics is the same.
- Ingest.OutputFile.Flush: cannot raise on its own. A raising final flush
  is modelled one level up, as the finish error of `WriteOutput`.
- Ingest.OutputFile.Close: cannot raise on its own. A raising close is
  modelled one level up, as the finish error of `WriteOutput`.
