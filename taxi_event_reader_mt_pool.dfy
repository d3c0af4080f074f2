/** The thread-pool reader: each object's decompressed lines are written to
    a file named after its key, the process-wide statistics are updated as
    each object completes, and the batch runs on at most ten workers. The
    workers are modelled as running one after another. */
module TaxiEventReaderMTPool {
  import opened Wrappers
  import opened Ingest

  const MaxFiles: nat := 20
  const MaxWorkers: nat := if MaxFiles < 10 then MaxFiles else 10
  const OutputDir: string := "./snappy_decompressed_events"
  const Ext: string := ".ndjson"
  /** The loop flushes after every this many written lines. */
  const FlushEvery: nat := 10000

  // ---------------------------------------------------------------------
  // Output names
  // ---------------------------------------------------------------------

  /** `safe_filename_from_key`: the key with every `/` and every `\` removed,
      followed by `ext`. */
  function SafeFileName(key: string, ext: string): (r: string)
    ensures |ext| <= |r| <= |key| + |ext| && r[|r| - |ext|..] == ext
    ensures '/' !in r[..|r| - |ext|] && '\\' !in r[..|r| - |ext|]
    ensures '/' !in ext && '\\' !in ext ==> '/' !in r && '\\' !in r
  {
    var stem := Without(Without(key, '/'), '\\');
    assert (stem + ext)[..|stem|] == stem && (stem + ext)[|stem|..] == ext;
    stem + ext
  }

  /** Nothing but the separators is dropped: the name before the extension
      holds every other character of the key as often as the key does. */
  lemma SafeFileNameKeepsTheRest(key: string, ext: string)
    ensures var r := SafeFileName(key, ext);
      multiset(r[..|r| - |ext|]) == multiset(key)['/' := 0]['\\' := 0]
  {
    var r := SafeFileName(key, ext);
    assert r[..|r| - |ext|] == Without(Without(key, '/'), '\\');
  }

  /** `os.path.join(OUTPUT_DIR, safe_filename_from_key(key, ".ndjson"))`:
      the output directory, one separator, and a name with none. */
  function OutputPath(key: string): (p: string)
    ensures |OutputDir| + 1 + |Ext| <= |p| && p[..|OutputDir| + 1] == OutputDir + "/"
    ensures '/' !in p[|OutputDir| + 1..]
    ensures p[|OutputDir| + 1..] == SafeFileName(key, Ext)
  {
    var name := SafeFileName(key, Ext);
    assert '/' !in Ext;
    var p := OutputDir + "/" + name;
    assert p[..|OutputDir| + 1] == OutputDir + "/" && p[|OutputDir| + 1..] == name;
    p
  }

  /** A separator anywhere in a key does not reach its output name: keys
      that differ only in separators share one output file, which the later
      object overwrites. */
  lemma {:induction false} SeparatorsIgnored(u: string, v: string, ext: string)
    ensures SafeFileName(u + "/" + v, ext) == SafeFileName(u + v, ext)
    ensures SafeFileName(u + "\\" + v, ext) == SafeFileName(u + v, ext)
    ensures OutputPath(u + "/" + v) == OutputPath(u + v)
    ensures OutputPath(u + "\\" + v) == OutputPath(u + v)
  {
    forall sep | sep == '/' || sep == '\\'
      ensures Without(Without(u + [sep] + v, '/'), '\\') == Without(Without(u + v, '/'), '\\')
    {
      WithoutAppend(u + [sep], v, '/');
      WithoutAppend(u, [sep], '/');
      WithoutAppend(u, v, '/');
      WithoutSingle(sep, '/');
      var u1, s1, v1 := Without(u, '/'), Without([sep], '/'), Without(v, '/');
      assert Without(u + [sep] + v, '/') == u1 + s1 + v1;
      WithoutAppend(u1 + s1, v1, '\\');
      WithoutAppend(u1, s1, '\\');
      WithoutAppend(u1, v1, '\\');
      if sep == '\\' {
        WithoutSingle(sep, '\\');
      } else {
        assert s1 == [];
      }
      assert Without(s1, '\\') == [];
      assert Without(u1 + s1, '\\') == Without(u1, '\\');
    }
    assert u + "/" + v == u + ['/'] + v;
    assert u + "\\" + v == u + ['\\'] + v;
  }

  // ---------------------------------------------------------------------
  // One object
  // ---------------------------------------------------------------------

  /** The `with open(...)` block of `process_object`: the output file is
      opened afresh, every line handled with a flush every 10000 written
      lines, the file flushed once more in `finally`, and closed. Only the
      timestamp bounds of the statistics change. A given `finishError` is
      what the final flush raises: no final flush is recorded, the file is
      still closed on leaving the block, and the block raises that error. */
  method WriteOutput(path: string, lines: seq<LineOutcome>, finishError: Option<string>, stats: Stats)
    returns (events: nat, fh: OutputFile, err: Option<string>)
    requires stats.Valid()
    modifies stats`earliest, stats`latest
    ensures stats.Valid()
    ensures fresh(fh) && fh.closed && fh.path == path
    ensures fh.lines == Written(lines) && events == |fh.lines|
    ensures fh.flushLog == FlushMarks(0, events, FlushEvery) + (if finishError.None? then [events] else [])
    ensures err == finishError
    ensures stats.earliest == Earliest(old(stats.earliest), Stamps(lines))
    ensures stats.latest == Latest(old(stats.latest), Stamps(lines))
  {
    fh := new OutputFile.Open(path);
    events := IngestLines(lines, fh, stats, FlushEvery);
    assert fh.lines == Written(lines);
    ghost var marks := fh.flushLog;
    assert marks == FlushMarks(0, events, FlushEvery);
    if finishError.None? {
      fh.Flush();
      assert fh.flushLog == marks + [events];
    }
    fh.Close();
    err := finishError;
  }

  /** `process_object`: a failed download raises before any file is opened and
      changes nothing. Otherwise every line is handled by the shared loop with
      a flush every 10000 written lines, the file is flushed once more in
      `finally` and closed. When the end of the `with` block raises, the
      object raises too: its lines are in the file and its timestamps already
      widened the bounds, but the totals are not updated. Otherwise the totals
      grow by the object's count and clamped processing time. */
  method ProcessObject(obj: SourceObject, stats: Stats) returns (r: Result<Completed, string>, fh: OutputFile?)
    requires stats.Valid()
    modifies stats
    ensures stats.Valid()
    ensures obj.download.DownloadFailed? ==> r == Failure(obj.download.reason) && fh == null
    ensures obj.download.Decompressed? && obj.finishError.Some? ==> r == Failure(obj.finishError.value)
    ensures Completes(obj) ==> r == Success(Completed(OutputPath(obj.key), EventsOf(obj), TimeOf(obj)))
    ensures obj.download.Decompressed? ==> fh != null && fresh(fh) && fh.closed
    ensures obj.download.Decompressed? ==>
      && fh.path == OutputPath(obj.key)
      && fh.lines == Written(obj.download.lines)
      && fh.flushLog == FlushMarks(0, |fh.lines|, FlushEvery) + (if Completes(obj) then [|fh.lines|] else [])
    ensures stats.totalEvents == old(stats.totalEvents) + EventsOf(obj)
    ensures stats.totalProcessingTime == old(stats.totalProcessingTime) + TimeOf(obj)
    ensures stats.earliest == Earliest(old(stats.earliest), StampsOf(obj))
    ensures stats.latest == Latest(old(stats.latest), StampsOf(obj))
  {
    if obj.download.DownloadFailed? {
      return Failure(obj.download.reason), null;
    }
    var outPath := OutputPath(obj.key);
    var events, out, err := WriteOutput(outPath, obj.download.lines, obj.finishError, stats);
    fh := out;
    if err.Some? {
      return Failure(err.value), fh;
    }
    stats.Record(events, obj.elapsed);
    r := Success(Completed(outPath, events, Max0(obj.elapsed)));
  }


  /** The `finally` flush covers every written line: the last flush sees the
      whole file, and every earlier one a multiple of 10000 lines. */
  lemma FinalFlushCoversAll(lines: seq<LineOutcome>)
    ensures var events := |Written(lines)|;
      var log := FlushMarks(0, events, FlushEvery) + [events];
      && log[|log| - 1] == events
      && forall k <- log[..|log| - 1] :: 0 < k <= events && k % FlushEvery == 0
  {
    var events := |Written(lines)|;
    FlushMarksAreMultiples(0, events, FlushEvery);
    var log := FlushMarks(0, events, FlushEvery) + [events];
    assert log[..|log| - 1] == FlushMarks(0, events, FlushEvery);
  }

  // ---------------------------------------------------------------------
  // The batch
  // ---------------------------------------------------------------------

  /** `min(MAX_WORKERS, len(objs))`, or None when `main` returns early on
      an empty listing. */
  function WorkerCount(n: nat): (w: Option<nat>)
    ensures w.None? <==> n == 0
    ensures w.Some? ==> 1 <= w.value <= MaxWorkers && w.value <= n
    ensures w.Some? ==> w.value == MaxWorkers || w.value == n
  {
    if n == 0 then None else Some(if MaxWorkers < n then MaxWorkers else n)
  }

  /** The output path an object contributes: none when its download failed
      or its `with` block raised. */
  function OutputOf(o: SourceObject): seq<string> {
    if Completes(o) then [OutputPath(o.key)] else []
  }

  /** The output paths of the objects that completed, in listing order. */
  function OutputsOf(objs: seq<SourceObject>): seq<string> {
    if objs == [] then [] else OutputsOf(objs[..|objs| - 1]) + OutputOf(objs[|objs| - 1])
  }

  /** The events counted over the objects that completed. */
  function TotalEvents(objs: seq<SourceObject>): nat {
    if objs == [] then 0 else TotalEvents(objs[..|objs| - 1]) + EventsOf(objs[|objs| - 1])
  }

  /** The processing time summed over the objects that completed. */
  function TotalTime(objs: seq<SourceObject>): real {
    if objs == [] then 0.0 else TotalTime(objs[..|objs| - 1]) + TimeOf(objs[|objs| - 1])
  }

  /** Every timestamp folded into the bounds over the batch, in order. */
  function AllStamps(objs: seq<SourceObject>): seq<int> {
    if objs == [] then [] else AllStamps(objs[..|objs| - 1]) + StampsOf(objs[|objs| - 1])
  }

  /** `main` after the listing: return early when it is empty; otherwise
      process every object and collect the output path of each one that
      completed, a failed object being logged and skipped. */
  method Run(objs: seq<SourceObject>, stats: Stats) returns (workers: Option<nat>, outputs: seq<string>)
    requires stats.Valid()
    modifies stats
    ensures stats.Valid()
    ensures workers == WorkerCount(|objs|)
    ensures objs == [] ==> outputs == [] && unchanged(stats)
    ensures outputs == OutputsOf(objs)
    ensures stats.totalEvents == old(stats.totalEvents) + TotalEvents(objs)
    ensures stats.totalProcessingTime == old(stats.totalProcessingTime) + TotalTime(objs)
    ensures stats.earliest == Earliest(old(stats.earliest), AllStamps(objs))
    ensures stats.latest == Latest(old(stats.latest), AllStamps(objs))
  {
    outputs := [];
    workers := WorkerCount(|objs|);
    if objs == [] {
      return;
    }
    for i := 0 to |objs|
      invariant stats.Valid()
      invariant outputs == OutputsOf(objs[..i])
      invariant stats.totalEvents == old(stats.totalEvents) + TotalEvents(objs[..i])
      invariant stats.totalProcessingTime == old(stats.totalProcessingTime) + TotalTime(objs[..i])
      invariant stats.earliest == Earliest(old(stats.earliest), AllStamps(objs[..i]))
      invariant stats.latest == Latest(old(stats.latest), AllStamps(objs[..i]))
    {
      BatchStep(objs, i);
      BoundsAppend(old(stats.earliest), old(stats.latest), AllStamps(objs[..i]), StampsOf(objs[i]));
      var r, _ := ProcessObject(objs[i], stats);
      if r.Success? {
        outputs := outputs + [r.value.outPath];
      }
      assert outputs == OutputsOf(objs[..i]) + OutputOf(objs[i]);
    }
    assert objs[..|objs|] == objs;
  }

  /** What one more object adds to the batch's specification functions. */
  lemma BatchStep(objs: seq<SourceObject>, i: nat)
    requires i < |objs|
    ensures OutputsOf(objs[..i + 1]) == OutputsOf(objs[..i]) + OutputOf(objs[i])
    ensures TotalEvents(objs[..i + 1]) == TotalEvents(objs[..i]) + EventsOf(objs[i])
    ensures TotalTime(objs[..i + 1]) == TotalTime(objs[..i]) + TimeOf(objs[i])
    ensures AllStamps(objs[..i + 1]) == AllStamps(objs[..i]) + StampsOf(objs[i])
  {
    assert objs[..i + 1][..i] == objs[..i];
  }

  /** Every timestamp of every object whose download succeeded lies within
      the bounds the batch ends with, also when its `with` block then raised
      and it added nothing to the totals. */
  lemma {:induction false} BatchBoundsCover(e: Option<int>, l: Option<int>, objs: seq<SourceObject>, j: nat, t: int)
    requires j < |objs| && objs[j].download.Decompressed?
    requires t in Stamps(objs[j].download.lines)
    ensures Earliest(e, AllStamps(objs)).Some? && Latest(l, AllStamps(objs)).Some?
    ensures Earliest(e, AllStamps(objs)).value <= t <= Latest(l, AllStamps(objs)).value
  {
    StampsInBatch(objs, j, t);
    EarliestIsMinimum(e, AllStamps(objs));
    LatestIsMaximum(l, AllStamps(objs));
  }

  /** A timestamp of an object whose download succeeded is among the
      batch's timestamps. */
  lemma {:induction false} StampsInBatch(objs: seq<SourceObject>, j: nat, t: int)
    requires j < |objs| && objs[j].download.Decompressed?
    requires t in Stamps(objs[j].download.lines)
    ensures t in AllStamps(objs)
  {
    var init := objs[..|objs| - 1];
    if j < |objs| - 1 {
      StampsInBatch(init, j, t);
    }
  }

  /** The batch total counts exactly the written lines of the completed
      objects, so it never falls short of any one of them. */
  lemma {:induction false} TotalCoversEach(objs: seq<SourceObject>, j: nat)
    requires j < |objs| && Completes(objs[j])
    ensures |Written(objs[j].download.lines)| <= TotalEvents(objs)
  {
    if j < |objs| - 1 {
      TotalCoversEach(objs[..|objs| - 1], j);
    }
  }

  /** At most one output per object, and exactly one each when every
      object completes. */
  lemma {:induction false} OneOutputPerCompletion(objs: seq<SourceObject>)
    ensures |OutputsOf(objs)| <= |objs|
    ensures (forall o <- objs :: Completes(o)) ==> |OutputsOf(objs)| == |objs|
  {
    if objs != [] {
      var init := objs[..|objs| - 1];
      OneOutputPerCompletion(init);
      assert forall o <- init :: o in objs;
    }
  }

  /** A batch whose every download failed writes nothing, counts nothing
      and leaves the bounds as they were. */
  lemma {:induction false} FailedBatchChangesNothing(objs: seq<SourceObject>)
    requires forall o <- objs :: o.download.DownloadFailed?
    ensures OutputsOf(objs) == [] && TotalEvents(objs) == 0 && AllStamps(objs) == []
  {
    if objs != [] {
      var init := objs[..|objs| - 1];
      assert forall o <- init :: o in objs;
      FailedBatchChangesNothing(init);
    }
  }
}
