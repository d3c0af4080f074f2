/** The stream side of the sniffer: a file-like byte source with a position,
    the reader that takes the three windows out of it by seek/tell/read, and
    the two entry points that never raise: one over an open stream (which
    puts the stream's position back) and one over a file path. */
module StreamSniffing {
  import opened Wrappers
  import opened FileFormatDetection

  /** Bytes from `pos` on, at most n of them (what `read(n)` returns). */
  function Window(data: seq<byte>, pos: nat, n: nat): (w: seq<byte>)
    ensures |w| <= n
    ensures pos <= |data| ==> |w| == Min(n, |data| - pos) && OccursAt(data, w, pos)
    ensures pos >= |data| ==> w == []
  {
    if pos >= |data| then [] else data[pos..Min(pos + n, |data|)]
  }

  /** A file-like object over `data`. Its read calls are numbered from 0;
      the call numbered `failingRead`, if any, raises with `failure` and
      leaves the position where it was. */
  class ByteSource {
    const data: seq<byte>
    const seekable: bool
    const failingRead: Option<nat>
    const failure: string
    var pos: nat
    var readCount: nat

    constructor (data: seq<byte>, seekable: bool, failingRead: Option<nat>, failure: string)
      ensures this.data == data && this.seekable == seekable
      ensures this.failingRead == failingRead && this.failure == failure
      ensures pos == 0 && readCount == 0
    {
      this.data := data;
      this.seekable := seekable;
      this.failingRead := failingRead;
      this.failure := failure;
      pos := 0;
      readCount := 0;
    }

    /** `tell()` */
    method Tell() returns (p: nat)
      ensures p == pos
    {
      p := pos;
    }

    /** `seek(offset, 0)` */
    method SeekStart(offset: nat)
      requires seekable
      modifies this`pos
      ensures pos == offset
    {
      pos := offset;
    }

    /** `seek(0, 2)` followed by `tell()`: move to the end and report the size. */
    method SeekEnd() returns (size: nat)
      requires seekable
      modifies this`pos
      ensures pos == |data| && size == |data|
    {
      pos := |data|;
      size := pos;
    }

    /** `read(n)`: up to n bytes from the position, which advances past them. */
    method Read(n: nat) returns (r: Result<seq<byte>, string>)
      modifies this`pos, this`readCount
      ensures readCount == old(readCount) + 1
      ensures failingRead == Some(old(readCount)) ==> r == Failure(failure) && pos == old(pos)
      ensures failingRead != Some(old(readCount)) ==>
        r == Success(Window(data, old(pos), n)) && pos == old(pos) + |r.value|
    {
      if failingRead == Some(readCount) {
        r := Failure(failure);
      } else {
        var w := Window(data, pos, n);
        r := Success(w);
        pos := pos + |w|;
      }
      readCount := readCount + 1;
    }

    /** `read()`: everything from the position to the end. */
    method ReadAll() returns (r: Result<seq<byte>, string>)
      modifies this`pos, this`readCount
      ensures readCount == old(readCount) + 1
      ensures failingRead == Some(old(readCount)) ==> r == Failure(failure) && pos == old(pos)
      ensures failingRead != Some(old(readCount)) ==>
        r == Success(Window(data, old(pos), |data|)) && pos == old(pos) + |r.value|
    {
      r := Read(|data|);
    }
  }

  /** Which of the reads of ReadRanges raises (0 head, 1 tail, 2 probe), when
      the source's read counter stands at k and the blob has n bytes. */
  function FailedStage(failingRead: Option<nat>, k: nat, n: nat): (s: Option<nat>)
    ensures s.Some? ==> s.value <= 2 && failingRead == Some(k + s.value)
    ensures s.None? ==> failingRead !in {Some(k), Some(k + 1)}
    ensures s == Some(2) <==> n >= ProbeOffset + ProbeLen && failingRead == Some(k + 2)
  {
    if failingRead == Some(k) then Some(0)
    else if failingRead == Some(k + 1) then Some(1)
    else if failingRead == Some(k + 2) && n >= ProbeOffset + ProbeLen then Some(2)
    else None
  }

  /** Where ReadRanges leaves the position of an n-byte source after the
      read of the given stage raised. */
  function StopPosition(stage: nat, n: nat): nat {
    if stage == 0 then 0
    else if stage == 1 then n - Min(TailLen, n)
    else ProbeOffset
  }

  /** Where ReadRanges leaves the position after all its reads succeeded. */
  function EndPosition(n: nat): nat {
    if n >= ProbeOffset + ProbeLen then ProbeOffset + ProbeLen else n
  }

  /** `_read_ranges`: seek to 0 and read the head, seek to the end to learn
      the size and read the tail, and read the probe at offset 257 only when
      the blob holds all 8 of its bytes. A read that raises ends it. */
  method ReadRanges(fp: ByteSource) returns (r: Result<Ranges, string>)
    requires fp.seekable
    modifies fp
    ensures var stage := FailedStage(fp.failingRead, old(fp.readCount), |fp.data|);
      if stage.None? then
        r == Success(RangesOf(fp.data)) && fp.pos == EndPosition(|fp.data|) &&
        fp.readCount == old(fp.readCount) + (if |fp.data| >= ProbeOffset + ProbeLen then 3 else 2)
      else
        r == Failure(fp.failure) && fp.pos == StopPosition(stage.value, |fp.data|) &&
        fp.readCount == old(fp.readCount) + stage.value + 1
  {
    fp.SeekStart(0);
    var head := fp.Read(HeadLen);
    if head.Failure? {
      return Failure(head.error);
    }

    var size := fp.SeekEnd();
    var tailLen := Min(TailLen, size);
    fp.SeekStart(size - tailLen);
    var tail := fp.Read(tailLen);
    if tail.Failure? {
      return Failure(tail.error);
    }
    assert tail.value == fp.data[size - tailLen..];

    var probe: seq<byte> := [];
    if size >= ProbeOffset + ProbeLen {
      fp.SeekStart(ProbeOffset);
      var p := fp.Read(ProbeLen);
      if p.Failure? {
        return Failure(p.error);
      }
      probe := p.value;
    }
    return Success(Ranges(head.value, tail.value, probe));
  }

  /** The detection for a stream that could not be read. */
  function StreamError(e: string): (d: Detection)
    ensures d.format == "unknown" && d.confidence == 0.0 && !d.IsKnown()
    ensures |d.evidence| > |e| && d.evidence[|d.evidence| - |e|..] == e
  {
    Detection("unknown", 0.0, "Stream read error: " + e)
  }

  /** `sniff_stream`: never raises. A seekable stream is read in place and,
      when its windows were read, put back at its position; a read that
      raises leaves it where that read stopped. A stream that cannot seek is
      read to its end and its remaining bytes are sniffed from a buffer. */
  method SniffStream(s: ByteSource) returns (d: Detection)
    modifies s
    ensures s.seekable ==>
      var stage := FailedStage(s.failingRead, old(s.readCount), |s.data|);
      if stage.None? then d == DetectBlob(s.data) && s.pos == old(s.pos)
      else d == StreamError(s.failure) && s.pos == StopPosition(stage.value, |s.data|)
    ensures !s.seekable ==>
      if s.failingRead == Some(old(s.readCount)) then d == StreamError(s.failure) && s.pos == old(s.pos)
      else d == DetectBlob(Window(s.data, old(s.pos), |s.data|)) &&
           s.pos == old(s.pos) + |Window(s.data, old(s.pos), |s.data|)|
    ensures d.format == "unknown" ==> d.confidence == 0.0
    ensures s.seekable ==>
      var stage := FailedStage(s.failingRead, old(s.readCount), |s.data|);
      s.readCount == old(s.readCount) +
        if stage.Some? then stage.value + 1
        else if |s.data| >= ProbeOffset + ProbeLen then 3 else 2
    ensures !s.seekable ==> s.readCount == old(s.readCount) + 1
  {
    if s.seekable {
      var pos := s.Tell();
      var ranges := ReadRanges(s);
      if ranges.Failure? {
        return StreamError(ranges.error);
      }
      s.SeekStart(pos);
      d := Detect(ranges.value);
    } else {
      var all := s.ReadAll();
      if all.Failure? {
        return StreamError(all.error);
      }
      var buffer := new ByteSource(all.value, true, None, "");
      var ranges := ReadRanges(buffer);
      d := Detect(ranges.value);
    }
  }

  /** What opening a path yields: no such file, an error raised by `open`,
      or an open file whose read calls may raise as a ByteSource's do. */
  datatype FileLookup =
    | Missing
    | Unopenable(reason: string)
    | Opened(bytes: seq<byte>, failingRead: Option<nat>, failure: string)

  /** `sniff_format`: never raises. A missing file and any I/O error give
      "unknown" with confidence 0.0 and say why; otherwise the file's windows
      decide. */
  method SniffFormat(file: FileLookup) returns (d: Detection)
    ensures file.Missing? ==> d == Detection("unknown", 0.0, "File not found.")
    ensures file.Unopenable? ==> d == Detection("unknown", 0.0, "I/O error: " + file.reason)
    ensures file.Opened? && FailedStage(file.failingRead, 0, |file.bytes|).Some? ==>
      d == Detection("unknown", 0.0, "I/O error: " + file.failure)
    ensures file.Opened? && FailedStage(file.failingRead, 0, |file.bytes|).None? ==>
      d == DetectBlob(file.bytes)
  {
    match file
    case Missing =>
      d := Detection("unknown", 0.0, "File not found.");
    case Unopenable(reason) =>
      d := Detection("unknown", 0.0, "I/O error: " + reason);
    case Opened(bytes, failingRead, failure) =>
      var fp := new ByteSource(bytes, true, failingRead, failure);
      var ranges := ReadRanges(fp);
      if ranges.Failure? {
        return Detection("unknown", 0.0, "I/O error: " + ranges.error);
      }
      d := Detect(ranges.value);
  }
}
