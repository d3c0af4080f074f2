/** What the two readers share: the outcome of handling one decoded line,
    the per-object output file, the process-wide statistics, the per-line
    loop of `process_object`, and the key-to-file-name flattening. The
    readers differ only in which separators they strip, how often the loop
    flushes, and whether they flush once more at the end. */
module Ingest {
  import opened Wrappers
  import opened Events

  // ---------------------------------------------------------------------
  // One line
  // ---------------------------------------------------------------------

  /** What handling one raw line comes to. The parser itself is not part of
      the model; only its outcome is. */
  datatype LineOutcome =
      // decoding or parsing raised ValueError: the line is skipped
    | Malformed
      // any other exception before the bounds update: the line is skipped
    | Failed
      // parsed; its timestamp (if any) widens the bounds and it is written
    | Parsed(text: string, timestamp: Option<int>)
      // parsed and its timestamp folded in, but writing it raised
    | Unwritable(text: string, timestamp: Option<int>)

  /** The line one outcome puts in the output file, if any. */
  function LineOf(o: LineOutcome): seq<string> {
    if o.Parsed? then [Terminate(o.text)] else []
  }

  /** The timestamp one outcome folds into the bounds, if any. */
  function StampOf(o: LineOutcome): seq<int> {
    if (o.Parsed? || o.Unwritable?) && o.timestamp.Some? then [o.timestamp.value] else []
  }

  /** The lines an outcome sequence puts in the output file, in order. */
  function Written(outcomes: seq<LineOutcome>): seq<string> {
    if outcomes == [] then []
    else Written(outcomes[..|outcomes| - 1]) + LineOf(outcomes[|outcomes| - 1])
  }

  /** How many lines are skipped without being counted. */
  function Skipped(outcomes: seq<LineOutcome>): nat {
    if outcomes == [] then 0
    else Skipped(outcomes[..|outcomes| - 1]) + (if outcomes[|outcomes| - 1].Parsed? then 0 else 1)
  }

  /** The timestamps that reach the bounds update, in order. */
  function Stamps(outcomes: seq<LineOutcome>): seq<int> {
    if outcomes == [] then []
    else Stamps(outcomes[..|outcomes| - 1]) + StampOf(outcomes[|outcomes| - 1])
  }

  // ---------------------------------------------------------------------
  // The time bounds
  // ---------------------------------------------------------------------

  /** `ts if earliest is None or ts < earliest else earliest` */
  function Lowered(earliest: Option<int>, ts: int): (b: int)
    ensures b <= ts && (earliest.Some? ==> b <= earliest.value)
    ensures b == ts || (earliest.Some? && b == earliest.value)
  {
    if earliest.None? || ts < earliest.value then ts else earliest.value
  }

  /** `ts if latest is None or ts > latest else latest` */
  function Raised(latest: Option<int>, ts: int): (b: int)
    ensures b >= ts && (latest.Some? ==> b >= latest.value)
    ensures b == ts || (latest.Some? && b == latest.value)
  {
    if latest.None? || ts > latest.value then ts else latest.value
  }

  /** The earliest bound after the timestamps ts were folded in, one by one. */
  function Earliest(e: Option<int>, ts: seq<int>): Option<int> {
    if ts == [] then e else Some(Lowered(Earliest(e, ts[..|ts| - 1]), ts[|ts| - 1]))
  }

  /** The latest bound after the timestamps ts were folded in, one by one. */
  function Latest(l: Option<int>, ts: seq<int>): Option<int> {
    if ts == [] then l else Some(Raised(Latest(l, ts[..|ts| - 1]), ts[|ts| - 1]))
  }

  /** `max(0.0, x)` */
  function Max0(x: real): (m: real)
    ensures m >= 0.0 && m >= x
    ensures m == x || m == 0.0
  {
    if x > 0.0 then x else 0.0
  }

  /** The line counts at which the loop flushes: every multiple of `every`
      up to `events`, offset by the lines the file already held. */
  function FlushMarks(base: nat, events: nat, every: nat): seq<nat>
    requires every > 0
  {
    if events == 0 then []
    else FlushMarks(base, events - 1, every) + (if events % every == 0 then [base + events] else [])
  }

  // ---------------------------------------------------------------------
  // Process-wide statistics and the output file
  // ---------------------------------------------------------------------

  /** The lock-guarded globals `total_events`, `total_processing_time`,
      `earliest_time` and `latest_time`. */
  class Stats {
    var totalEvents: nat
    var totalProcessingTime: real
    var earliest: Option<int>
    var latest: Option<int>

    /** Both bounds are set together and never cross. */
    ghost predicate Valid()
      reads this
    {
      && totalProcessingTime >= 0.0
      && (earliest.Some? <==> latest.Some?)
      && (earliest.Some? ==> earliest.value <= latest.value)
    }

    constructor ()
      ensures Valid()
      ensures totalEvents == 0 && totalProcessingTime == 0.0 && earliest == None && latest == None
    {
      totalEvents := 0;
      totalProcessingTime := 0.0;
      earliest := None;
      latest := None;
    }

    /** The bounds update for one timestamp. */
    method Observe(ts: int)
      requires Valid()
      modifies this`earliest, this`latest
      ensures Valid()
      ensures earliest == Some(Lowered(old(earliest), ts)) && latest == Some(Raised(old(latest), ts))
      ensures earliest.value <= ts <= latest.value
    {
      if earliest.None? || ts < earliest.value {
        earliest := Some(ts);
      }
      if latest.None? || ts > latest.value {
        latest := Some(ts);
      }
    }

    /** The totals update once an object is done: `elapsed` is the clock
      difference the source clamps at zero. */
    method Record(events: nat, elapsed: real)
      requires Valid()
      modifies this`totalEvents, this`totalProcessingTime
      ensures Valid()
      ensures totalEvents == old(totalEvents) + events
      ensures totalProcessingTime == old(totalProcessingTime) + Max0(elapsed)
    {
      totalEvents := totalEvents + events;
      totalProcessingTime := totalProcessingTime + Max0(elapsed);
    }
  }

  /** A text file opened for writing. `flushLog` holds the number of lines
      written at each explicit `flush()`. */
  class OutputFile {
    const path: string
    var lines: seq<string>
    var flushLog: seq<nat>
    var closed: bool

    /** `open(path, "w")`: whatever the file held before is discarded. */
    constructor Open(path: string)
      ensures this.path == path && lines == [] && flushLog == [] && !closed
    {
      this.path := path;
      lines := [];
      flushLog := [];
      closed := false;
    }

    method Write(line: string)
      modifies this`lines
      ensures lines == old(lines) + [line]
    {
      lines := lines + [line];
    }

    method Flush()
      modifies this`flushLog
      ensures flushLog == old(flushLog) + [|lines|]
    {
      flushLog := flushLog + [|lines|];
    }

    /** Leaving the `with` block. */
    method Close()
      modifies this`closed
      ensures closed
    {
      closed := true;
    }
  }

  // ---------------------------------------------------------------------
  // The per-line loop of process_object
  // ---------------------------------------------------------------------

  /** For each line in order: widen the bounds by its timestamp, write it
      newline-terminated, count it, and flush whenever the count reaches a
      multiple of `flushEvery`. A line that raises is skipped and the loop
      goes on. */
  method IngestLines(outcomes: seq<LineOutcome>, fh: OutputFile, stats: Stats, flushEvery: nat)
    returns (events: nat)
    requires flushEvery > 0
    requires stats.Valid()
    modifies fh`lines, fh`flushLog, stats`earliest, stats`latest
    ensures stats.Valid()
    ensures events == |Written(outcomes)|
    ensures fh.lines == old(fh.lines) + Written(outcomes)
    ensures fh.flushLog == old(fh.flushLog) + FlushMarks(|old(fh.lines)|, events, flushEvery)
    ensures stats.earliest == Earliest(old(stats.earliest), Stamps(outcomes))
    ensures stats.latest == Latest(old(stats.latest), Stamps(outcomes))
  {
    events := 0;
    ghost var start := Snapshot(fh.lines, fh.flushLog, stats.earliest, stats.latest);
    assert outcomes[..0] == [];
    for i := 0 to |outcomes|
      invariant stats.Valid()
      invariant Progress(fh, stats, start, outcomes[..i], events, flushEvery)
    {
      assert outcomes[..i + 1] == outcomes[..i] + [outcomes[i]];
      events := HandleLine(outcomes[i], fh, stats, events, flushEvery, start, outcomes[..i]);
    }
    assert outcomes[..|outcomes|] == outcomes;
  }

  /** The file and the bounds as the loop found them. */
  datatype Snapshot = Snapshot(lines: seq<string>, flushLog: seq<nat>, earliest: Option<int>, latest: Option<int>)

  /** The loop's invariant: after the lines `done`, the file, its flushes,
      the count and the bounds are what those lines add to `start`. */
  ghost predicate Progress(fh: OutputFile, stats: Stats, start: Snapshot, done: seq<LineOutcome>,
                           events: nat, flushEvery: nat)
    reads fh, stats
    requires flushEvery > 0
  {
    Accounts(start, done, events, flushEvery, Snapshot(fh.lines, fh.flushLog, stats.earliest, stats.latest))
  }

  /** `now` is what the lines `done`, `events` of them written, make of `start`. */
  ghost predicate Accounts(start: Snapshot, done: seq<LineOutcome>, events: nat, flushEvery: nat, now: Snapshot)
    requires flushEvery > 0
  {
    && events == |Written(done)|
    && now.lines == start.lines + Written(done)
    && now.flushLog == start.flushLog + FlushMarks(|start.lines|, events, flushEvery)
    && now.earliest == Earliest(start.earliest, Stamps(done))
    && now.latest == Latest(start.latest, Stamps(done))
  }

  /** The body of the loop for one line, `events` being the count so far
      and `done` the lines already handled. */
  method HandleLine(o: LineOutcome, fh: OutputFile, stats: Stats, events: nat, flushEvery: nat,
                    ghost start: Snapshot, ghost done: seq<LineOutcome>)
    returns (events': nat)
    requires flushEvery > 0
    requires stats.Valid()
    requires Progress(fh, stats, start, done, events, flushEvery)
    modifies fh`lines, fh`flushLog, stats`earliest, stats`latest
    ensures stats.Valid()
    ensures Progress(fh, stats, start, done + [o], events', flushEvery)
  {
    ghost var before := Snapshot(fh.lines, fh.flushLog, stats.earliest, stats.latest);
    ObserveLine(o, stats);
    events' := WriteLine(o, fh, events, flushEvery);
    AccountsStep(start, done, o, events, events', flushEvery, before,
                 Snapshot(fh.lines, fh.flushLog, stats.earliest, stats.latest));
  }

  /** One line handled on top of an accounted state gives an accounted
      state, the line now among those done. */
  lemma AccountsStep(start: Snapshot, done: seq<LineOutcome>, o: LineOutcome, events: nat, events': nat,
                     flushEvery: nat, before: Snapshot, after: Snapshot)
    requires flushEvery > 0
    requires Accounts(start, done, events, flushEvery, before)
    requires after.lines == before.lines + LineOf(o) && events' == events + |LineOf(o)|
    requires after.flushLog == before.flushLog +
      (if o.Parsed? && events' % flushEvery == 0 then [|after.lines|] else [])
    requires after.earliest == Earliest(before.earliest, StampOf(o))
    requires after.latest == Latest(before.latest, StampOf(o))
    ensures Accounts(start, done + [o], events', flushEvery, after)
  {
    LoopStep(done, o);
    SeqAppendAssoc(start.lines, Written(done), LineOf(o));
    BoundsAppend(start.earliest, start.latest, Stamps(done), StampOf(o));
    if o.Parsed? {
      assert events' == events + 1;
      assert after.flushLog == before.flushLog +
        (if events' % flushEvery == 0 then [|after.lines|] else []);
      FlushAppend(start.flushLog, |start.lines|, events', flushEvery, before.flushLog, after.flushLog, |after.lines|);
    } else {
      assert LineOf(o) == [];
      assert events' == events && after.flushLog == before.flushLog;
    }
    assert after.lines == start.lines + Written(done + [o]);
    assert after.flushLog == start.flushLog + FlushMarks(|start.lines|, events', flushEvery);
  }

  lemma SeqAppendAssoc<T>(a: seq<T>, b: seq<T>, c: seq<T>)
    ensures a + b + c == a + (b + c)
  {
  }

  /** Counting the `n`-th written line on top of `base` extends the flushes
      by the mark, if any, for that count. */
  lemma FlushAppend(log0: seq<nat>, base: nat, n: nat, every: nat, before: seq<nat>, after: seq<nat>, count: nat)
    requires every > 0 && n > 0 && count == base + n
    requires before == log0 + FlushMarks(base, n - 1, every)
    requires after == before + (if n % every == 0 then [count] else [])
    ensures after == log0 + FlushMarks(base, n, every)
  {
  }

  /** The bounds update of one line: the timestamp of a parsed line,
      whether or not it is then written. */
  method ObserveLine(o: LineOutcome, stats: Stats)
    requires stats.Valid()
    modifies stats`earliest, stats`latest
    ensures stats.Valid()
    ensures stats.earliest == Earliest(old(stats.earliest), StampOf(o))
    ensures stats.latest == Latest(old(stats.latest), StampOf(o))
  {
    if (o.Parsed? || o.Unwritable?) && o.timestamp.Some? {
      BoundsStep(stats.earliest, stats.latest, [], o.timestamp.value);
      stats.Observe(o.timestamp.value);
    }
  }

  /** The write of one line: a parsed line is written newline-terminated
      and counted, and the file is flushed when the count reaches a
      multiple of `flushEvery`. */
  method WriteLine(o: LineOutcome, fh: OutputFile, events: nat, flushEvery: nat) returns (events': nat)
    requires flushEvery > 0
    modifies fh`lines, fh`flushLog
    ensures fh.lines == old(fh.lines) + LineOf(o)
    ensures events' == events + |LineOf(o)|
    ensures fh.flushLog == old(fh.flushLog) +
      (if o.Parsed? && events' % flushEvery == 0 then [|fh.lines|] else [])
  {
    events' := events;
    if o.Parsed? {
      fh.Write(Terminate(o.text));
      events' := events + 1;
      if events' % flushEvery == 0 {
        fh.Flush();
      }
    }
  }

  /** What one more line adds to the loop's specification functions. */
  lemma LoopStep(done: seq<LineOutcome>, o: LineOutcome)
    ensures Written(done + [o]) == Written(done) + LineOf(o)
    ensures Stamps(done + [o]) == Stamps(done) + StampOf(o)
  {
    assert (done + [o])[..|done|] == done;
  }

  /** Folding one more timestamp is one more bounds update. */
  lemma BoundsStep(e: Option<int>, l: Option<int>, ts: seq<int>, t: int)
    ensures Earliest(e, ts + [t]) == Some(Lowered(Earliest(e, ts), t))
    ensures Latest(l, ts + [t]) == Some(Raised(Latest(l, ts), t))
  {
    assert (ts + [t])[..|ts|] == ts;
  }

  // ---------------------------------------------------------------------
  // Properties of the loop's specification
  // ---------------------------------------------------------------------

  /** Every written line ends with a newline, added only where missing. */
  lemma {:induction false} WrittenTerminated(outcomes: seq<LineOutcome>)
    ensures forall line <- Written(outcomes) :: EndsWithNewline(line)
  {
    if outcomes != [] {
      WrittenTerminated(outcomes[..|outcomes| - 1]);
    }
  }

  /** Written lines keep input order: the lines of a concatenation are the
      lines of its first part followed by those of its second. */
  lemma {:induction false} WrittenAppend(a: seq<LineOutcome>, b: seq<LineOutcome>)
    ensures Written(a + b) == Written(a) + Written(b)
    ensures Stamps(a + b) == Stamps(a) + Stamps(b)
    ensures Skipped(a + b) == Skipped(a) + Skipped(b)
  {
    if b == [] {
      assert a + b == a;
    } else {
      var init, last := b[..|b| - 1], b[|b| - 1];
      assert (a + b)[..|a + b| - 1] == a + init && (a + b)[|a + b| - 1] == last;
      WrittenAppend(a, init);
      assert Written(a + b) == Written(a + init) + LineOf(last);
      SeqAppendAssoc(Written(a), Written(init), LineOf(last));
      assert Stamps(a + b) == Stamps(a + init) + StampOf(last);
      SeqAppendAssoc(Stamps(a), Stamps(init), StampOf(last));
    }
  }

  /** The count covers exactly the lines that reached the write: every line
      is either written and counted or skipped. */
  lemma {:induction false} CountedOrSkipped(outcomes: seq<LineOutcome>)
    ensures |Written(outcomes)| + Skipped(outcomes) == |outcomes|
    ensures |Written(outcomes)| == |outcomes| <==> forall o <- outcomes :: o.Parsed?
  {
    if outcomes != [] {
      var init := outcomes[..|outcomes| - 1];
      CountedOrSkipped(init);
      assert outcomes == init + [outcomes[|outcomes| - 1]];
    }
  }

  /** When no line parses, the file stays empty and the count stays zero;
      when every line fails before the bounds update, the bounds stay too. */
  lemma {:induction false} NothingParsedNothingWritten(outcomes: seq<LineOutcome>)
    requires forall o <- outcomes :: !o.Parsed?
    ensures Written(outcomes) == []
    ensures (forall o <- outcomes :: o.Malformed? || o.Failed?) ==> Stamps(outcomes) == []
  {
    if outcomes != [] {
      var init := outcomes[..|outcomes| - 1];
      assert forall o <- init :: o in outcomes;
      assert outcomes[|outcomes| - 1] in outcomes;
      NothingParsedNothingWritten(init);
    }
  }

  /** The earliest bound is the least of the starting bound and every
      folded timestamp: no larger than any of them and equal to one. */
  lemma {:induction false} EarliestIsMinimum(e: Option<int>, ts: seq<int>)
    ensures Earliest(e, ts).Some? <==> e.Some? || ts != []
    ensures forall t <- ts :: Earliest(e, ts).value <= t
    ensures e.Some? ==> Earliest(e, ts).value <= e.value
    ensures Earliest(e, ts) == e || Earliest(e, ts).value in ts
  {
    if ts != [] {
      var init, last := ts[..|ts| - 1], ts[|ts| - 1];
      EarliestIsMinimum(e, init);
      var prev, r := Earliest(e, init), Earliest(e, ts).value;
      assert r == Lowered(prev, last);
      forall t <- ts
        ensures r <= t
      {
        if t != last {
          InInit(ts, t);
        }
      }
      if r != last {
        assert prev.Some? && r == prev.value;
        if prev != e {
          InitIn(ts, r);
        }
      }
    }
  }

  /** The latest bound is the greatest of the starting bound and every
      folded timestamp: no smaller than any of them and equal to one. */
  lemma {:induction false} LatestIsMaximum(l: Option<int>, ts: seq<int>)
    ensures Latest(l, ts).Some? <==> l.Some? || ts != []
    ensures forall t <- ts :: t <= Latest(l, ts).value
    ensures l.Some? ==> l.value <= Latest(l, ts).value
    ensures Latest(l, ts) == l || Latest(l, ts).value in ts
  {
    if ts != [] {
      var init, last := ts[..|ts| - 1], ts[|ts| - 1];
      LatestIsMaximum(l, init);
      var prev, r := Latest(l, init), Latest(l, ts).value;
      assert r == Raised(prev, last);
      forall t <- ts
        ensures t <= r
      {
        if t != last {
          InInit(ts, t);
        }
      }
      if r != last {
        assert prev.Some? && r == prev.value;
        if prev != l {
          InitIn(ts, r);
        }
      }
    }
  }

  /** An element of a non-empty sequence other than its last is in the
      rest of it. */
  lemma InInit<T>(s: seq<T>, x: T)
    requires x in s && x != s[|s| - 1]
    ensures x in s[..|s| - 1]
  {
    var k :| 0 <= k < |s| && s[k] == x;
    assert s[..|s| - 1][k] == x;
  }

  /** What is in the sequence without its last element is in the sequence. */
  lemma InitIn<T>(s: seq<T>, x: T)
    requires |s| > 0 && x in s[..|s| - 1]
    ensures x in s
  {
    var k :| 0 <= k < |s| - 1 && s[..|s| - 1][k] == x;
    assert s[k] == x;
  }

  /** Folding two runs of timestamps one after the other is folding their
      concatenation. */
  lemma {:induction false} BoundsAppend(e: Option<int>, l: Option<int>, a: seq<int>, b: seq<int>)
    ensures Earliest(e, a + b) == Earliest(Earliest(e, a), b)
    ensures Latest(l, a + b) == Latest(Latest(l, a), b)
  {
    if b == [] {
      assert a + b == a;
    } else {
      assert (a + b)[..|a + b| - 1] == a + b[..|b| - 1];
      BoundsAppend(e, l, a, b[..|b| - 1]);
    }
  }

  /** The bounds do not depend on the order in which timestamps arrive, only
      on which timestamps arrived. */
  lemma BoundsIgnoreOrder(e: Option<int>, l: Option<int>, a: seq<int>, b: seq<int>)
    requires forall t :: t in a <==> t in b
    ensures Earliest(e, a) == Earliest(e, b)
    ensures Latest(l, a) == Latest(l, b)
  {
    EarliestIsMinimum(e, a);
    EarliestIsMinimum(e, b);
    LatestIsMaximum(l, a);
    LatestIsMaximum(l, b);
  }

  /** The flush marks are exactly the multiples of `every` up to `events`,
      shifted by `base`. */
  lemma {:induction false} FlushMarksAreMultiples(base: nat, events: nat, every: nat)
    requires every > 0
    ensures forall k :: k in FlushMarks(base, events, every) <==>
      base < k <= base + events && (k - base) % every == 0
  {
    if events > 0 {
      FlushMarksAreMultiples(base, events - 1, every);
    }
  }

  /** The flush marks strictly increase, so no multiple is flushed twice. */
  lemma {:induction false} FlushMarksIncrease(base: nat, events: nat, every: nat)
    requires every > 0
    ensures forall i, j :: 0 <= i < j < |FlushMarks(base, events, every)| ==>
      FlushMarks(base, events, every)[i] < FlushMarks(base, events, every)[j]
  {
    if events > 0 {
      var prev, cur := FlushMarks(base, events - 1, every), FlushMarks(base, events, every);
      FlushMarksIncrease(base, events - 1, every);
      FlushMarksAreMultiples(base, events - 1, every);
      assert cur[..|prev|] == prev;
      forall i | 0 <= i < |prev|
        ensures cur[i] < base + events
      {
        assert cur[i] == prev[i] && prev[i] in prev;
      }
    }
  }

  // ---------------------------------------------------------------------
  // One object
  // ---------------------------------------------------------------------

  /** What `download_and_decompress` yields: it raised, or it produced a
      stream whose lines come to the given outcomes. */
  datatype Download =
    | DownloadFailed(reason: string)
    | Decompressed(lines: seq<LineOutcome>)

  /** An object of the listing: what downloading it yields, the error the
      end of its `with open(...)` block raises (a failing final `flush()` or
      close; None when the block completes), and the clock difference its
      processing measures. */
  datatype SourceObject = SourceObject(key: string, download: Download, finishError: Option<string>, elapsed: real)

  /** What `process_object` returns: the output path, the event count and
      the processing time. */
  datatype Completed = Completed(outPath: string, events: nat, procTime: real)

  /** `process_object` returns for this object: the download succeeded and
      the `with` block completed. */
  predicate Completes(o: SourceObject) {
    o.download.Decompressed? && o.finishError.None?
  }

  /** The events an object contributes to the total: none unless it
      completes. */
  function EventsOf(o: SourceObject): nat {
    if Completes(o) then |Written(o.download.lines)| else 0
  }

  /** The processing time an object contributes to the total: none unless
      it completes. */
  function TimeOf(o: SourceObject): real {
    if Completes(o) then Max0(o.elapsed) else 0.0
  }

  /** The timestamps an object folds into the bounds: those of all its
      lines once the download succeeded, whether or not the `with` block
      then raises, since the bounds are widened line by line. */
  function StampsOf(o: SourceObject): seq<int> {
    if o.download.Decompressed? then Stamps(o.download.lines) else []
  }

  // ---------------------------------------------------------------------
  // Key flattening
  // ---------------------------------------------------------------------

  /** `s.replace(c, "")`: s with every occurrence of c removed, the other
      characters kept in order. */
  function Without(s: string, c: char): (r: string)
    ensures c !in r
    ensures |r| <= |s|
    ensures forall x | x in r :: x in s
    ensures multiset(r) == multiset(s)[c := 0]
    ensures c !in s ==> r == s
  {
    if s == [] then []
    else
      assert s == [s[0]] + s[1..];
      (if s[0] == c then [] else [s[0]]) + Without(s[1..], c)
  }

  /** Removal works piece by piece: removing from a concatenation is
      concatenating the removals, so the characters that stay keep their
      order. */
  lemma {:induction false} WithoutAppend(a: string, b: string, c: char)
    ensures Without(a + b, c) == Without(a, c) + Without(b, c)
  {
    if a == [] {
      assert a + b == b;
    } else {
      var head: string := if a[0] == c then [] else [a[0]];
      assert (a + b)[0] == a[0] && (a + b)[1..] == a[1..] + b;
      assert Without(a + b, c) == head + Without(a[1..] + b, c);
      WithoutAppend(a[1..], b, c);
      assert Without(a, c) == head + Without(a[1..], c);
      SeqAppendAssoc(head, Without(a[1..], c), Without(b, c));
    }
  }

  /** Removing c from the one-character string [x]. */
  lemma WithoutSingle(x: char, c: char)
    ensures Without([x], c) == if x == c then [] else [x]
  {
    assert [x][1..] == [];
  }
}
