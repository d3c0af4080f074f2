/** The byte-signature format sniffer: the detection record with its category
    predicates, the shared signature table, and the priority-ordered matcher
    that classifies a blob from its head window, its tail window and an
    8-byte probe at offset 257. Everything here is pure; the stream handling
    that extracts the windows lives in module StreamSniffing. */
module FileFormatDetection {
  import opened Wrappers

  type byte = bv8

  // ---------------------------------------------------------------------
  // Format names and Python's str.lower() on them
  // ---------------------------------------------------------------------

  function LowerChar(c: char): char {
    if 'A' <= c <= 'Z' then (c as int + 32) as char else c
  }

  /** ASCII lower-casing, standing for `str.lower()`. */
  function Lower(s: string): (r: string)
    ensures |r| == |s|
    ensures forall i :: 0 <= i < |r| ==> !('A' <= r[i] <= 'Z')
    ensures forall i :: 0 <= i < |s| && !('A' <= s[i] <= 'Z') ==> r[i] == s[i]
    ensures forall i :: 0 <= i < |s| && 'A' <= s[i] <= 'Z' ==> r[i] == (s[i] as int + 32) as char
  {
    seq(|s|, i requires 0 <= i < |s| => LowerChar(s[i]))
  }

  const CompressedNames: set<string> :=
    {"gzip", "zstd", "bzip2", "lz4-frame", "xz", "snappy-framed", "brotli"}
  const ArchiveNames: set<string> := {"zip", "7z", "tar"}
  const ColumnarNames: set<string> := {"parquet", "orc"}

  /** Every name the detector can put in a detection. */
  const DetectableNames: set<string> :=
    {"gzip", "zstd", "bzip2", "lz4-frame", "xz", "zip", "7z", "snappy-framed",
     "parquet", "orc", "tar", "unknown"}

  /** A classification: the format name, a confidence in [0, 1] and the
      reason it was chosen. Its category predicates are computed from the
      lower-cased name only. */
  datatype Detection = Detection(format: string, confidence: real, evidence: string)
  {
    /** `is_known()`: a detection named "unknown" is never known, whatever
        its confidence. */
    predicate IsKnown()
      ensures IsKnown() ==> format != "unknown" && confidence > 0.0
    {
      Lower(format) != "unknown" && confidence > 0.0
    }

    /** `is_compressed()`: a compression format is neither an archive nor
        a columnar format. */
    predicate IsCompressed()
      ensures IsCompressed() ==> Lower(format) !in ArchiveNames && Lower(format) !in ColumnarNames
    {
      Lower(format) in CompressedNames
    }

    /** `is_archive()`: an archive is neither a compression format nor a
        columnar format. */
    predicate IsArchive()
      ensures IsArchive() ==> Lower(format) !in CompressedNames && Lower(format) !in ColumnarNames
    {
      Lower(format) in ArchiveNames
    }

    /** `is_columnar()`: a columnar format is neither a compression format
        nor an archive. */
    predicate IsColumnar()
      ensures IsColumnar() ==> Lower(format) !in CompressedNames && Lower(format) !in ArchiveNames
    {
      Lower(format) in ColumnarNames
    }
  }

  // ---------------------------------------------------------------------
  // The signature table
  // ---------------------------------------------------------------------

  /** One entry of the table. A kind of magic the entry does not use is the
      empty list. */
  datatype Signature = Signature(
    start: seq<seq<byte>>,        // the blob starts with one of these
    ends: seq<seq<byte>>,         // the blob ends with one of these
    endContains: seq<seq<byte>>,  // the last 16 tail bytes contain one of these
    tarMagic: seq<seq<byte>>,     // the offset-257 probe starts with one of these
    evidence: string)

  const PAR1: seq<byte> := [0x50, 0x41, 0x52, 0x31]
  const GzipMagic: seq<byte> := [0x1F, 0x8B]

  const Signatures: map<string, Signature> := map[
    "gzip" := Signature([GzipMagic], [], [], [], "Starts with 1f 8b (gzip)."),
    "zstd" := Signature([[0x28, 0xB5, 0x2F, 0xFD]], [], [], [], "Starts with 28 b5 2f fd (zstd)."),
    "bzip2" := Signature([[0x42, 0x5A, 0x68]], [], [], [], "Starts with 'BZh' (bzip2)."),
    "lz4-frame" := Signature([[0x04, 0x22, 0x4D, 0x18]], [], [], [], "Starts with 04 22 4d 18 (LZ4 frame)."),
    "xz" := Signature([[0xFD, 0x37, 0x7A, 0x58, 0x5A, 0x00]], [], [], [], "Starts with fd 37 7a 58 5a 00 (XZ)."),
    "zip" := Signature([[0x50, 0x4B, 0x03, 0x04], [0x50, 0x4B, 0x05, 0x06], [0x50, 0x4B, 0x07, 0x08]],
                       [], [], [], "Starts with PK (ZIP container)."),
    "7z" := Signature([[0x37, 0x7A, 0xBC, 0xAF, 0x27, 0x1C]], [], [], [], "Starts with 37 7a bc af 27 1c (7z archive)."),
    "snappy-framed" := Signature([[0xFF, 0x06, 0x00, 0x00, 0x73, 0x4E, 0x61, 0x50, 0x70, 0x59]], [], [], [],
                                 "Starts with ff 06 00 00 'sNaPpY' (Snappy framed)."),
    "parquet" := Signature([PAR1], [PAR1], [], [], "Has 'PAR1' at start and end (Parquet)."),
    "orc" := Signature([], [], [[0x4F, 0x52, 0x43]], [], "Tail contains 'ORC' in postscript (ORC)."),
    "tar" := Signature([], [], [], [[0x75, 0x73, 0x74, 0x61, 0x72, 0x00], [0x75, 0x73, 0x74, 0x61, 0x72, 0x20, 0x20]],
                       "Has 'ustar' at offset 257 (TAR).")
  ]

  /** The start-only signatures, in the order they are tried. */
  const StartOnlyOrder: seq<string> :=
    ["gzip", "zstd", "bzip2", "lz4-frame", "xz", "zip", "7z", "snappy-framed"]

  /** The first byte shared by every start magic of StartOnlyOrder[i]. */
  const StartFirstBytes: seq<byte> := [0x1F, 0x28, 0x42, 0x04, 0xFD, 0x50, 0x37, 0xFF]

  const UnknownEvidence: string := "No decisive signature found."

  // ---------------------------------------------------------------------
  // Byte-string tests (bytes.startswith / endswith / `in`)
  // ---------------------------------------------------------------------

  predicate StartsWith(buf: seq<byte>, p: seq<byte>) {
    |p| <= |buf| && buf[..|p|] == p
  }

  predicate EndsWith(buf: seq<byte>, p: seq<byte>) {
    |p| <= |buf| && buf[|buf| - |p|..] == p
  }

  /** p occurs in buf starting at index i. */
  predicate OccursAt(buf: seq<byte>, p: seq<byte>, i: nat) {
    i + |p| <= |buf| && buf[i..i + |p|] == p
  }

  /** `p in buf`: p occurs as a contiguous slice of buf. */
  predicate Contains(buf: seq<byte>, p: seq<byte>) {
    exists i :: 0 <= i <= |buf| && OccursAt(buf, p, i)
  }

  /** `any(buf.startswith(p) for p in ps)`: false for an empty list; when
      true, buf is one of the patterns followed by further bytes. */
  predicate StartsWithAny(buf: seq<byte>, ps: seq<seq<byte>>)
    ensures StartsWithAny(buf, ps) ==> ps != []
    ensures StartsWithAny(buf, ps) ==>
      (exists i :: 0 <= i < |ps| && |ps[i]| <= |buf| && buf == ps[i] + buf[|ps[i]|..])
  {
    exists i :: 0 <= i < |ps| && StartsWith(buf, ps[i])
  }

  /** `any(buf.endswith(p) for p in ps)`: false for an empty list; when
      true, buf is further bytes followed by one of the patterns. */
  predicate EndsWithAny(buf: seq<byte>, ps: seq<seq<byte>>)
    ensures EndsWithAny(buf, ps) ==> ps != []
    ensures EndsWithAny(buf, ps) ==>
      (exists i :: 0 <= i < |ps| && |ps[i]| <= |buf| && buf == buf[..|buf| - |ps[i]|] + ps[i])
  {
    exists i :: 0 <= i < |ps| && EndsWith(buf, ps[i])
  }

  /** `any(p in buf for p in ps)`: false for an empty list; when true, some
      pattern fits in buf. */
  predicate ContainsAny(buf: seq<byte>, ps: seq<seq<byte>>)
    ensures ContainsAny(buf, ps) ==> ps != []
    ensures ContainsAny(buf, ps) ==> (exists i :: 0 <= i < |ps| && |ps[i]| <= |buf|)
  {
    exists i :: 0 <= i < |ps| && Contains(buf, ps[i])
  }

  /** Python's `buf[-n:]` for a positive n. */
  function LastN(buf: seq<byte>, n: nat): (r: seq<byte>)
    requires n > 0
    ensures |r| == if |buf| <= n then |buf| else n
    ensures r == buf[|buf| - |r|..]
  {
    if |buf| <= n then buf else buf[|buf| - n..]
  }

  // ---------------------------------------------------------------------
  // The three windows and the matcher
  // ---------------------------------------------------------------------

  const HeadLen: nat := 64
  const TailLen: nat := 64
  const ProbeOffset: nat := 257
  const ProbeLen: nat := 8
  const OrcWindow: nat := 16

  function Min(a: int, b: int): int {
    if a < b then a else b
  }

  /** The bytes the sniffer looks at: a head window, a tail window and the
      probe at ProbeOffset (empty when the blob is too short for it). */
  datatype Ranges = Ranges(head: seq<byte>, tail: seq<byte>, probe: seq<byte>)

  /** The windows of an n-byte blob: the first min(64, n) bytes, the last
      min(64, n) bytes, and bytes 257..265 when the blob has them. */
  function RangesOf(data: seq<byte>): (r: Ranges)
    ensures |r.head| == Min(HeadLen, |data|) && StartsWith(data, r.head)
    ensures |r.tail| == Min(TailLen, |data|) && EndsWith(data, r.tail)
    ensures |data| < ProbeOffset + ProbeLen <==> r.probe == []
    ensures r.probe != [] ==> OccursAt(data, r.probe, ProbeOffset) && |r.probe| == ProbeLen
  {
    Ranges(data[..Min(HeadLen, |data|)],
           data[|data| - Min(TailLen, |data|)..],
           if |data| >= ProbeOffset + ProbeLen then data[ProbeOffset..ProbeOffset + ProbeLen] else [])
  }

  /** The Parquet stage: PAR1 both opens the head and closes the tail. */
  predicate ParquetMatch(r: Ranges)
    ensures ParquetMatch(r) ==> |r.head| >= |PAR1| && r.head[..|PAR1|] == PAR1
    ensures ParquetMatch(r) ==> |r.tail| >= |PAR1| && r.tail[|r.tail| - |PAR1|..] == PAR1
  {
    StartsWithAny(r.head, Signatures["parquet"].start) && EndsWithAny(r.tail, Signatures["parquet"].ends)
  }

  /** The tar stage: the probe starts with "ustar", so an empty probe (a
      blob too short to have one) never matches. */
  predicate TarMatch(r: Ranges)
    ensures TarMatch(r) ==> |r.probe| >= 6 && r.probe[..5] == [0x75, 0x73, 0x74, 0x61, 0x72]
  {
    StartsWithAny(r.probe, Signatures["tar"].tarMagic)
  }

  /** The ORC stage: "ORC" occurs within the last 16 bytes of the tail. */
  predicate OrcMatch(r: Ranges)
    ensures OrcMatch(r) ==> |r.tail| >= 3
  {
    ContainsAny(LastN(r.tail, OrcWindow), Signatures["orc"].endContains)
  }

  /** The first name of `names` whose start magic begins `head`. */
  function FirstStartMatch(head: seq<byte>, names: seq<string>, table: map<string, Signature>): (m: Option<string>)
    requires forall n <- names :: n in table
    ensures m.Some? ==> m.value in names && StartsWithAny(head, table[m.value].start)
    ensures m.None? <==> forall i :: 0 <= i < |names| ==> !StartsWithAny(head, table[names[i]].start)
  {
    if names == [] then None
    else if StartsWithAny(head, table[names[0]].start) then Some(names[0])
    else FirstStartMatch(head, names[1..], table)
  }

  /** The name FirstStartMatch picks is the first in `names` whose start
      magic begins `head`: every name listed before it fails. */
  lemma {:induction false} FirstStartMatchIsFirst(head: seq<byte>, names: seq<string>, table: map<string, Signature>)
    requires forall n <- names :: n in table
    ensures var m := FirstStartMatch(head, names, table);
      m.Some? ==>
        exists k :: 0 <= k < |names| && names[k] == m.value &&
          forall i :: 0 <= i < k ==> !StartsWithAny(head, table[names[i]].start)
  {
    if names == [] {
    } else if StartsWithAny(head, table[names[0]].start) {
      assert names[0] == FirstStartMatch(head, names, table).value;
    } else {
      var rest := names[1..];
      forall n <- rest
        ensures n in table
      {
        assert n in names;
      }
      FirstStartMatchIsFirst(head, rest, table);
      var m := FirstStartMatch(head, rest, table);
      if m.Some? {
        var k :| 0 <= k < |rest| && rest[k] == m.value &&
          forall i :: 0 <= i < k ==> !StartsWithAny(head, table[rest[i]].start);
        forall i | 0 <= i < k + 1
          ensures !StartsWithAny(head, table[names[i]].start)
        {
          if i > 0 {
            assert names[i] == rest[i - 1];
          }
        }
        assert names[k + 1] == m.value;
      }
    }
  }

  /** The start-only names are detectable, have table entries, and are none
      of the names the other stages produce. */
  lemma StartOnlyNames()
    ensures forall n <- StartOnlyOrder :: n in DetectableNames && n in Signatures
    ensures "parquet" !in StartOnlyOrder && "tar" !in StartOnlyOrder
    ensures "orc" !in StartOnlyOrder && "unknown" !in StartOnlyOrder
  {
    forall i | 0 <= i < |StartOnlyOrder|
      ensures StartOnlyOrder[i] in DetectableNames && StartOnlyOrder[i] in Signatures
    {
    }
  }

  /** The priority-ordered classification, first match wins: Parquet (magic
      at both ends), the start-only magics in declared order, tar at the
      probe, ORC in the last 16 tail bytes, otherwise unknown. */
  function Detect(r: Ranges): (d: Detection)
    ensures d.format in DetectableNames
    ensures d.confidence in {1.0, 0.95, 0.9, 0.0}
    ensures d.format == "unknown" <==> d.confidence == 0.0
    ensures d.format == "parquet" <==> ParquetMatch(r)
    ensures d.format in StartOnlyOrder ==> !ParquetMatch(r) && StartsWithAny(r.head, Signatures[d.format].start)
  {
    StartOnlyNames();
    if ParquetMatch(r) then
      Detection("parquet", 1.0, Signatures["parquet"].evidence)
    else
      match FirstStartMatch(r.head, StartOnlyOrder, Signatures)
      case Some(name) => Detection(name, 1.0, Signatures[name].evidence)
      case None =>
        if TarMatch(r) then Detection("tar", 0.95, Signatures["tar"].evidence)
        else if OrcMatch(r) then Detection("orc", 0.9, Signatures["orc"].evidence)
        else Detection("unknown", 0.0, UnknownEvidence)
  }

  /** What sniffing a whole blob yields once its windows are read. */
  function DetectBlob(data: seq<byte>): (d: Detection)
    ensures |data| < ProbeOffset + ProbeLen ==> d.format != "tar"
  {
    Detect(RangesOf(data))
  }

  // ---------------------------------------------------------------------
  // Properties
  // ---------------------------------------------------------------------

  /** Every name the detector produces is already lower case, so the
      category predicates see it unchanged. */
  lemma NamesAreLowerCase(n: string)
    requires n in DetectableNames
    ensures Lower(n) == n
  {
  }

  /** Every detection other than "unknown" lies in exactly one category;
      "unknown" lies in none; a detection is known exactly when it is not
      "unknown". */
  lemma CategoriesPartition(r: Ranges)
    ensures var d := Detect(r);
      if d.format == "unknown" then
        !d.IsCompressed() && !d.IsArchive() && !d.IsColumnar() && !d.IsKnown()
      else
        d.IsKnown() &&
        (d.IsCompressed() || d.IsArchive() || d.IsColumnar()) &&
        !(d.IsCompressed() && d.IsArchive()) &&
        !(d.IsCompressed() && d.IsColumnar()) &&
        !(d.IsArchive() && d.IsColumnar())
  {
    NamesAreLowerCase(Detect(r).format);
  }

  /** All start magics of StartOnlyOrder[k] begin with StartFirstBytes[k]. */
  lemma StartMagicFirstByte(k: nat, j: nat)
    requires k < |StartOnlyOrder|
    requires j < |Signatures[StartOnlyOrder[k]].start|
    ensures |Signatures[StartOnlyOrder[k]].start[j]| > 0
    ensures Signatures[StartOnlyOrder[k]].start[j][0] == StartFirstBytes[k]
  {
  }

  /** No head starts with the magics of two different start-only formats, so
      the declared order never decides between two candidates. */
  lemma StartMagicsDisjoint(head: seq<byte>, k: nat, l: nat)
    requires k < |StartOnlyOrder| && l < |StartOnlyOrder| && k != l
    requires StartsWithAny(head, Signatures[StartOnlyOrder[k]].start)
    ensures !StartsWithAny(head, Signatures[StartOnlyOrder[l]].start)
  {
    var ps := Signatures[StartOnlyOrder[k]].start;
    var i :| 0 <= i < |ps| && StartsWith(head, ps[i]);
    StartMagicFirstByte(k, i);
    assert head[0] == StartFirstBytes[k] by { assert head[..|ps[i]|][0] == head[0]; }
    var qs := Signatures[StartOnlyOrder[l]].start;
    forall j | 0 <= j < |qs|
      ensures !StartsWith(head, qs[j])
    {
      StartMagicFirstByte(l, j);
      if |qs[j]| <= |head| { assert head[..|qs[j]|][0] == head[0]; }
    }
  }

  /** The start-only stage picks StartOnlyOrder[k] exactly when the head
      starts with one of that format's magics. */
  lemma StartOnlyMatch(head: seq<byte>, k: nat)
    requires k < |StartOnlyOrder|
    ensures FirstStartMatch(head, StartOnlyOrder, Signatures) == Some(StartOnlyOrder[k])
            <==> StartsWithAny(head, Signatures[StartOnlyOrder[k]].start)
  {
    var m := FirstStartMatch(head, StartOnlyOrder, Signatures);
    if StartsWithAny(head, Signatures[StartOnlyOrder[k]].start) {
      assert m.Some?;
      var l :| 0 <= l < |StartOnlyOrder| && StartOnlyOrder[l] == m.value;
      if l != k {
        StartMagicsDisjoint(head, l, k);
      }
    }
  }

  /** The first two stages of the priority order: Parquet, then each
      start-only format when Parquet did not match. */
  lemma PriorityOrder(r: Ranges)
    ensures Detect(r) == Detection("parquet", 1.0, Signatures["parquet"].evidence) <==> ParquetMatch(r)
    ensures forall k :: 0 <= k < |StartOnlyOrder| ==>
      (Detect(r) == Detection(StartOnlyOrder[k], 1.0, Signatures[StartOnlyOrder[k]].evidence)
       <==> !ParquetMatch(r) && StartsWithAny(r.head, Signatures[StartOnlyOrder[k]].start))
  {
    StartOnlyNames();
    forall k | 0 <= k < |StartOnlyOrder|
      ensures Detect(r) == Detection(StartOnlyOrder[k], 1.0, Signatures[StartOnlyOrder[k]].evidence)
              <==> !ParquetMatch(r) && StartsWithAny(r.head, Signatures[StartOnlyOrder[k]].start)
    {
      StartOnlyMatch(r.head, k);
    }
  }

  /** The last stages of the priority order: tar, then ORC, then unknown,
      each only once every earlier stage failed. */
  lemma FallbackOrder(r: Ranges)
    ensures Detect(r) == Detection("tar", 0.95, Signatures["tar"].evidence)
      <==> !ParquetMatch(r) && FirstStartMatch(r.head, StartOnlyOrder, Signatures).None? && TarMatch(r)
    ensures Detect(r) == Detection("orc", 0.9, Signatures["orc"].evidence)
      <==> !ParquetMatch(r) && FirstStartMatch(r.head, StartOnlyOrder, Signatures).None? && !TarMatch(r) && OrcMatch(r)
    ensures Detect(r) == Detection("unknown", 0.0, UnknownEvidence)
      <==> !ParquetMatch(r) && FirstStartMatch(r.head, StartOnlyOrder, Signatures).None? && !TarMatch(r) && !OrcMatch(r)
  {
    StartOnlyNames();
  }

  /** A one-pattern list matches exactly when its pattern does. */
  lemma SingleMagic(head: seq<byte>, tail: seq<byte>, p: seq<byte>)
    ensures StartsWithAny(head, [p]) <==> StartsWith(head, p)
    ensures EndsWithAny(tail, [p]) <==> EndsWith(tail, p)
    ensures ContainsAny(tail, [p]) <==> Contains(tail, p)
  {
    assert [p][0] == p;
  }

  /** A blob starting 1f 8b is gzip with confidence 1.0, whatever its tail
      or probe hold. */
  lemma GzipMagicWins(data: seq<byte>)
    requires StartsWith(data, GzipMagic)
    ensures DetectBlob(data) == Detection("gzip", 1.0, "Starts with 1f 8b (gzip).")
  {
    var r := RangesOf(data);
    assert r.head[..2] == GzipMagic;
    assert r.head[0] == 0x1F by { assert r.head[..2][0] == r.head[0]; }
    assert !ParquetMatch(r) by {
      assert !StartsWith(r.head, PAR1) by {
        if |r.head| >= 4 { assert r.head[..4][0] == r.head[0]; }
      }
      SingleMagic(r.head, r.tail, PAR1);
    }
    assert StartsWithAny(r.head, Signatures[StartOnlyOrder[0]].start) by {
      SingleMagic(r.head, r.tail, GzipMagic);
    }
    StartOnlyWins(r, 0);
  }

  /** Without a Parquet match, a head carrying a magic of the k-th
      start-only format is classified as that format. */
  lemma StartOnlyWins(r: Ranges, k: nat)
    requires k < |StartOnlyOrder|
    requires !ParquetMatch(r) && StartsWithAny(r.head, Signatures[StartOnlyOrder[k]].start)
    ensures Detect(r) == Detection(StartOnlyOrder[k], 1.0, Signatures[StartOnlyOrder[k]].evidence)
  {
    StartOnlyMatch(r.head, k);
  }

  /** A blob is parquet exactly when it both starts and ends with PAR1; in
      particular a PAR1 head without a PAR1 tail is never parquet. */
  lemma ParquetNeedsBothEnds(data: seq<byte>)
    ensures DetectBlob(data).format == "parquet" <==> StartsWith(data, PAR1) && EndsWith(data, PAR1)
  {
    var r := RangesOf(data);
    assert StartsWith(r.head, PAR1) <==> StartsWith(data, PAR1) by {
      if |data| >= 4 { assert r.head[..4] == data[..4]; }
    }
    assert EndsWith(r.tail, PAR1) <==> EndsWith(data, PAR1) by {
      if |data| >= 4 { assert r.tail[|r.tail| - 4..] == data[|data| - 4..]; }
    }
    SingleMagic(r.head, r.tail, PAR1);
  }

  /** "orc" is returned exactly when no earlier stage matched and ORC occurs
      in the last 16 bytes of the tail. */
  lemma OrcOnlyAsFallback(data: seq<byte>)
    ensures var r := RangesOf(data);
      DetectBlob(data).format == "orc"
      <==> !ParquetMatch(r) && FirstStartMatch(r.head, StartOnlyOrder, Signatures).None? && !TarMatch(r)
           && Contains(LastN(r.tail, OrcWindow), [0x4F, 0x52, 0x43])
  {
    var r := RangesOf(data);
    SingleMagic(r.head, LastN(r.tail, OrcWindow), [0x4F, 0x52, 0x43]);
  }
}
