/** The earlier multi-threaded reader: the same per-line loop as the pool
    reader, except that only `/` is stripped from the key, the loop flushes
    after every 50000 written lines, and there is no flush of its own when
    the loop ends (closing the file writes what is left). */
module TaxiEventReaderMT {
  import opened Wrappers
  import opened Ingest

  const OutputDir: string := "./snappy_decompressed_events"
  const Ext: string := ".ndjson"
  /** The loop flushes after every this many written lines. */
  const FlushEvery: nat := 50000

  // ---------------------------------------------------------------------
  // Output names
  // ---------------------------------------------------------------------

  /** `safe_filename_from_key`: the key with every `/` removed, followed by
      `ext`. Backslashes and every other character stay. */
  function SafeFileName(key: string, ext: string): (r: string)
    ensures |ext| <= |r| <= |key| + |ext| && r[|r| - |ext|..] == ext
    ensures '/' !in r[..|r| - |ext|]
    ensures multiset(r[..|r| - |ext|]) == multiset(key)['/' := 0]
    ensures '/' !in ext ==> '/' !in r
  {
    var stem := Without(key, '/');
    assert (stem + ext)[..|stem|] == stem && (stem + ext)[|stem|..] == ext;
    stem + ext
  }

  /** Unlike the pool reader's, this name keeps every backslash of the key. */
  lemma BackslashesKept(key: string, ext: string)
    ensures var r := SafeFileName(key, ext);
      multiset(r)['\\'] == multiset(key)['\\'] + multiset(ext)['\\']
  {
    var r := SafeFileName(key, ext);
    assert r == r[..|r| - |ext|] + ext;
  }

  /** `os.path.join(OUTPUT_DIR, safe_filename_from_key(key, ".ndjson"))` */
  function OutputPath(key: string): (p: string)
    ensures |OutputDir| + 1 + |Ext| <= |p| && p[..|OutputDir| + 1] == OutputDir + "/"
    ensures '/' !in p[|OutputDir| + 1..]
    ensures p[|OutputDir| + 1..] == SafeFileName(key, Ext)
  {
    var name := SafeFileName(key, Ext);
    assert '/' !in Ext;
    var p := OutputDir + "/" + name;
    assert p[..|OutputDir| + 1] == OutputDir + "/" && p[|OutputDir| + 1..] == name;
    p
  }

  /** A `/` anywhere in a key does not reach its output name. */
  lemma {:induction false} SlashIgnored(u: string, v: string, ext: string)
    ensures SafeFileName(u + "/" + v, ext) == SafeFileName(u + v, ext)
  {
    var slash: string := ['/'];
    assert u + "/" + v == (u + slash) + v;
    WithoutAppend(u + slash, v, '/');
    WithoutAppend(u, slash, '/');
    WithoutAppend(u, v, '/');
    WithoutSingle('/', '/');
    assert Without(u + slash, '/') == Without(u, '/');
    assert Without(u + "/" + v, '/') == Without(u + v, '/');
  }

  /** The segments joined by `/`, as an object key is. */
  function JoinSegments(segments: seq<string>): string {
    if |segments| == 0 then ""
    else if |segments| == 1 then segments[0]
    else JoinSegments(segments[..|segments| - 1]) + "/" + segments[|segments| - 1]
  }

  /** The segments run together. */
  function Concat(segments: seq<string>): string {
    if segments == [] then "" else Concat(segments[..|segments| - 1]) + segments[|segments| - 1]
  }

  /** A key made of segments free of `/` is named after its segments run
      together: the separators leave no trace in the name. */
  lemma SegmentsRunTogether(segments: seq<string>, ext: string)
    requires forall s <- segments :: '/' !in s
    ensures SafeFileName(JoinSegments(segments), ext) == Concat(segments) + ext
  {
    StemRunsTogether(segments);
  }

  /** Removing every `/` from segments joined by `/` runs them together. */
  lemma {:induction false} StemRunsTogether(segments: seq<string>)
    requires forall s <- segments :: '/' !in s
    ensures Without(JoinSegments(segments), '/') == Concat(segments)
  {
    if |segments| == 1 {
      assert segments[..0] == [];
      assert Concat(segments) == segments[0];
      assert '/' !in segments[0];
    } else if |segments| > 1 {
      var init, last := segments[..|segments| - 1], segments[|segments| - 1];
      forall s <- init
        ensures '/' !in s
      {
        InitIn(segments, s);
      }
      StemRunsTogether(init);
      var j := JoinSegments(init);
      assert JoinSegments(segments) == (j + "/") + last;
      WithoutAppend(j + "/", last, '/');
      WithoutAppend(j, "/", '/');
      WithoutSingle('/', '/');
      assert Without(j + "/", '/') == Concat(init);
      assert '/' !in last;
      assert Without(last, '/') == last;
    }
  }

  /** The segments of the key in the function's own documentation comment,
      `artifacts/flink-refarch/data/file.snz/part-0000.snz`. */
  const DocumentedSegments: seq<string> := ["artifacts", "flink-refarch", "data", "file.snz", "part-0000.snz"]

  /** Five segments run together. */
  lemma ConcatFive(a: string, b: string, c: string, d: string, e: string)
    ensures Concat([a, b, c, d, e]) == a + b + c + d + e
  {
    assert [a][..0] == [] && [] + a == a;
    assert Concat([a]) == a;
    assert [a, b][..1] == [a];
    assert Concat([a, b]) == a + b;
    assert [a, b, c][..2] == [a, b];
    assert Concat([a, b, c]) == a + b + c;
    assert [a, b, c, d][..3] == [a, b, c];
    assert Concat([a, b, c, d]) == a + b + c + d;
    assert [a, b, c, d, e][..4] == [a, b, c, d];
  }

  /** The name the documentation comment gives is not what the code
      produces: it is two characters longer. */
  lemma DocumentedNameDiffers()
    ensures |Concat(DocumentedSegments)| == 47
    ensures Concat(DocumentedSegments) + Ext != "artifacts_flink-refarchdatafile.snz_part-0000.snz" + Ext
  {
    var d := DocumentedSegments;
    ConcatFive(d[0], d[1], d[2], d[3], d[4]);
    assert d == [d[0], d[1], d[2], d[3], d[4]];
    assert |d[0]| == 9 && |d[1]| == 13 && |d[2]| == 4 && |d[3]| == 8 && |d[4]| == 13;
  }

  /** What the key in the function's own documentation comes to: its
      segments run together, with no `_` put where a separator was. */
  lemma DocumentedKey(d: seq<string>)
    requires d == DocumentedSegments
    ensures SafeFileName(JoinSegments(d), Ext) == Concat(d) + Ext
    ensures SafeFileName(JoinSegments(d), Ext) != "artifacts_flink-refarchdatafile.snz_part-0000.snz" + Ext
  {
    assert '/' !in d[0] && '/' !in d[1] && '/' !in d[2] && '/' !in d[3] && '/' !in d[4];
    SegmentsRunTogether(d, Ext);
    DocumentedNameDiffers();
  }

  // ---------------------------------------------------------------------
  // One object
  // ---------------------------------------------------------------------

  /** The `with open(...)` block of `process_object`: the output file is
      opened afresh, every line handled with a flush every 50000 written
      lines, and the file closed without a final flush. Only the timestamp
      bounds of the statistics change. A given `finishError` is what the
      close raises: the block raises that error. */
  method WriteOutput(path: string, lines: seq<LineOutcome>, finishError: Option<string>, stats: Stats)
    returns (events: nat, fh: OutputFile, err: Option<string>)
    requires stats.Valid()
    modifies stats`earliest, stats`latest
    ensures stats.Valid()
    ensures fresh(fh) && fh.closed && fh.path == path
    ensures fh.lines == Written(lines) && events == |fh.lines|
    ensures fh.flushLog == FlushMarks(0, events, FlushEvery)
    ensures err == finishError
    ensures stats.earliest == Earliest(old(stats.earliest), Stamps(lines))
    ensures stats.latest == Latest(old(stats.latest), Stamps(lines))
  {
    fh := new OutputFile.Open(path);
    events := IngestLines(lines, fh, stats, FlushEvery);
    assert fh.lines == Written(lines);
    fh.Close();
    err := finishError;
  }

  /** `process_object`: a failed download raises before any file is opened and
      changes nothing. Otherwise every line is handled by the shared loop with
      a flush every 50000 written lines, and the file is closed without a
      final flush. When the end of the `with` block raises, the object raises
      too: its lines are in the file and its timestamps already widened the
      bounds, but the totals are not updated. Otherwise the totals grow by the
      object's count and clamped processing time. */
  method ProcessObject(obj: SourceObject, stats: Stats) returns (r: Result<Completed, string>, fh: OutputFile?)
    requires stats.Valid()
    modifies stats
    ensures stats.Valid()
    ensures obj.download.DownloadFailed? ==> r == Failure(obj.download.reason) && fh == null
    ensures obj.download.Decompressed? && obj.finishError.Some? ==> r == Failure(obj.finishError.value)
    ensures Completes(obj) ==> r == Success(Completed(OutputPath(obj.key), EventsOf(obj), TimeOf(obj)))
    ensures obj.download.Decompressed? ==> fh != null && fresh(fh) && fh.closed
    ensures obj.download.Decompressed? ==>
      && fh.path == OutputPath(obj.key)
      && fh.lines == Written(obj.download.lines)
      && fh.flushLog == FlushMarks(0, |fh.lines|, FlushEvery)
    ensures stats.totalEvents == old(stats.totalEvents) + EventsOf(obj)
    ensures stats.totalProcessingTime == old(stats.totalProcessingTime) + TimeOf(obj)
    ensures stats.earliest == Earliest(old(stats.earliest), StampsOf(obj))
    ensures stats.latest == Latest(old(stats.latest), StampsOf(obj))
  {
    if obj.download.DownloadFailed? {
      return Failure(obj.download.reason), null;
    }
    var outPath := OutputPath(obj.key);
    var events, out, err := WriteOutput(outPath, obj.download.lines, obj.finishError, stats);
    fh := out;
    if err.Some? {
      return Failure(err.value), fh;
    }
    stats.Record(events, obj.elapsed);
    r := Success(Completed(outPath, events, Max0(obj.elapsed)));
  }


  /** Without a flush of its own at the end, the lines written after the last
      multiple of 50000 are never flushed explicitly: every flush sees fewer
      lines than the file ends with unless that count is a multiple. */
  lemma TailLeftToClose(lines: seq<LineOutcome>)
    ensures var events := |Written(lines)|;
      events % FlushEvery != 0 ==> forall k <- FlushMarks(0, events, FlushEvery) :: k < events
    ensures var events := |Written(lines)|;
      events % FlushEvery == 0 && events > 0 ==>
        var log := FlushMarks(0, events, FlushEvery);
        |log| > 0 && log[|log| - 1] == events
  {
    var events := |Written(lines)|;
    var log := FlushMarks(0, events, FlushEvery);
    FlushMarksAreMultiples(0, events, FlushEvery);
    if events % FlushEvery != 0 {
      forall k | k in log
        ensures k < events
      {
        assert k <= events && k % FlushEvery == 0;
        assert k != events;
      }
    }
    if events > 0 && events % FlushEvery == 0 {
      assert FlushMarks(0, events, FlushEvery) == FlushMarks(0, events - 1, FlushEvery) + [events];
    }
  }
}
