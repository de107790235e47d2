/** The display helpers of the vector-store viewer: the file name and file
    type derived from a chunk's source path, the fixed-width truncations of
    the summary table, and the per-source, per-file and per-type chunk
    counters. The store itself is a parameter: the ids, documents and
    metadata it returns are given as sequences. */
module Viewer {
  import opened Text

  /** The two metadata entries the viewer reads. */
  datatype Metadata = Metadata(source: Option<string>, chunkId: Option<int>)

  // ---------------------------------------------------------------------
  // File information
  // ---------------------------------------------------------------------

  /** s.split(c)[-1]: the text after the last c, or all of s without one. */
  function AfterLast(s: string, c: char): (r: string)
    ensures |r| <= |s| && r == s[|s| - |r|..]
    ensures c !in r
    ensures c in s ==> |r| < |s| && s[|s| - |r| - 1] == c
    ensures c !in s ==> r == s
    decreases |s|
  {
    if s == [] then []
    else if s[|s| - 1] == c then []
    else
      var init := s[..|s| - 1];
      var r := AfterLast(init, c);
      assert s == init + [s[|s| - 1]];
      r + [s[|s| - 1]]
  }

  const UnknownSource: string := "Unknown"
  const DefaultType: string := "TXT"

  /** metadata.get("source", "Unknown"). */
  function SourceOf(m: Metadata): string {
    match m.source
    case Some(s) => s
    case None => UnknownSource
  }

  /** The file name: after the last '/', else after the last '\', else the
      whole source. */
  function FileName(source: string): string {
    if '/' in source then AfterLast(source, '/')
    else if '\\' in source then AfterLast(source, '\\')
    else source
  }

  /** The upper-cased text after the last '.', or "TXT" without a '.'. */
  function FileType(filename: string): string {
    if '.' in filename then Upper(AfterLast(filename, '.')) else DefaultType
  }

  datatype FileInfo = FileInfo(filename: string, fileType: string, source: string)

  /** _extract_file_info. */
  function ExtractFileInfo(m: Metadata): FileInfo {
    var source := SourceOf(m);
    var filename := FileName(source);
    FileInfo(filename, FileType(filename), source)
  }

  /** The file name is a suffix of the source with no '/' in it; it has no
      '\' either when the source has no '/'; and it is the whole source
      when the source has neither separator. */
  lemma {:induction false} FileNameShape(source: string)
    ensures var f := FileName(source);
      |f| <= |source| && f == source[|source| - |f|..] && '/' !in f &&
      ('/' !in source ==> '\\' !in f) &&
      ('/' !in source && '\\' !in source ==> f == source)
  {
  }

  /** A path with a directory part gives back its last component. */
  lemma {:induction false} FileNameOfPath(dir: string, name: string)
    requires '/' !in name
    ensures FileName(dir + "/" + name) == name
  {
    var s := dir + "/" + name;
    assert s[|dir|] == '/';
    assert s == (dir + "/") + name;
  }

  /** A metadata entry without a source reads as "Unknown", of type TXT. */
  lemma {:induction false} MissingSource()
    ensures ExtractFileInfo(Metadata(None, None)) == FileInfo("Unknown", "TXT", "Unknown")
  {
    assert '/' !in UnknownSource && '\\' !in UnknownSource && '.' !in UnknownSource;
  }

  /** The file type of a name ending in '.' is empty, not "TXT"; a name
      without a '.' is of type TXT; otherwise the extension is upper-cased. */
  lemma {:induction false} FileTypeCases(name: string, ext: string)
    requires '.' !in ext
    ensures FileType(name + "." + ext) == Upper(ext)
    ensures FileType(name + ".") == []
    ensures '.' !in name ==> FileType(name) == "TXT"
  {
    var s := name + "." + ext;
    assert s[|name|] == '.';
    assert s == (name + ".") + ext;
    assert (name + ".")[|name|] == '.';
  }

  // ---------------------------------------------------------------------
  // Truncation
  // ---------------------------------------------------------------------

  /** A text longer than width becomes its first width - 3 characters and
      "..."; a shorter one is kept. */
  function Truncate(s: string, width: nat): string
    requires width >= 3
  {
    if |s| > width then s[..width - 3] + "..." else s
  }

  /** A truncated text fits the width, keeps the text's head, and is the
      text itself when that already fits. */
  lemma {:induction false} TruncateFits(s: string, width: nat)
    requires width >= 3
    ensures var r := Truncate(s, width);
      |r| <= width && (|s| <= width ==> r == s) &&
      (|s| > width ==> |r| == width && r[..width - 3] == s[..width - 3] && r[width - 3..] == "...")
  {
  }

  /** Truncating twice is truncating once. */
  lemma {:induction false} TruncateIdempotent(s: string, width: nat)
    requires width >= 3
    ensures Truncate(Truncate(s, width), width) == Truncate(s, width)
  {
  }

  const FileWidth: nat := 32
  const PreviewWidth: nat := 40
  const IdWidth: nat := 25

  /** str.replace with a one-character pattern and replacement maps the
      text character by character. */
  lemma {:induction false} ReplaceOneChar(s: string, c: char, d: char)
    ensures var r := ReplaceAll(s, [c], [d]);
      |r| == |s| && forall i :: 0 <= i < |s| ==> r[i] == if s[i] == c then d else s[i]
    decreases |s|
  {
    if s != [] {
      ReplaceOneChar(s[1..], c, d);
      assert OccursAt(s, [c], 0) <==> s[0] == c by {
        assert s[0..1] == [s[0]];
      }
    }
  }

  /** The preview: at most 40 characters, with newlines and carriage
      returns turned into spaces. */
  function Preview(document: string): string {
    var p := Truncate(document, PreviewWidth);
    ReplaceAll(ReplaceAll(p, "\n", " "), "\r", " ")
  }

  /** The newline replacement keeps the length, so the preview still fits
      its width, and no line break is left. */
  lemma {:induction false} PreviewShape(document: string)
    ensures var p := Preview(document);
      |p| == |Truncate(document, PreviewWidth)| && |p| <= PreviewWidth &&
      '\n' !in p && '\r' !in p
  {
    var t := Truncate(document, PreviewWidth);
    TruncateFits(document, PreviewWidth);
    ReplaceOneChar(t, '\n', ' ');
    var u := ReplaceAll(t, "\n", " ");
    ReplaceOneChar(u, '\r', ' ');
  }

  // ---------------------------------------------------------------------
  // Counters
  // ---------------------------------------------------------------------

  /** A dict from text to count, in insertion order. */
  type Counter = seq<(string, nat)>

  /** d.get(k, default). */
  function Get(d: Counter, k: string, default: nat): nat
    decreases |d|
  {
    if d == [] then default
    else if d[0].0 == k then d[0].1
    else Get(d[1..], k, default)
  }

  /** d[k] = v: an existing entry keeps its place, a new one goes last. */
  function Set(d: Counter, k: string, v: nat): Counter
    decreases |d|
  {
    if d == [] then [(k, v)]
    else if d[0].0 == k then [(k, v)] + d[1..]
    else [d[0]] + Set(d[1..], k, v)
  }

  /** The sum of the counts. */
  function Total(d: Counter): nat
    decreases |d|
  {
    if d == [] then 0 else d[0].1 + Total(d[1..])
  }

  lemma {:induction false} GetSet(d: Counter, k: string, v: nat, k': string, default: nat)
    ensures Get(Set(d, k, v), k', default) == if k' == k then v else Get(d, k', default)
    decreases |d|
  {
    if d != [] && d[0].0 != k {
      GetSet(d[1..], k, v, k', default);
    }
  }

  lemma {:induction false} TotalSet(d: Counter, k: string, v: nat)
    ensures Total(Set(d, k, v)) + Get(d, k, 0) == Total(d) + v
    decreases |d|
  {
    if d != [] {
      if d[0].0 == k {
        assert ([(k, v)] + d[1..])[1..] == d[1..];
      } else {
        TotalSet(d[1..], k, v);
        assert ([d[0]] + Set(d[1..], k, v))[1..] == Set(d[1..], k, v);
      }
    }
  }

  /** The counter after counting each key of keys once. */
  function Tally(keys: seq<string>): Counter
    decreases |keys|
  {
    if keys == [] then []
    else
      var d := Tally(keys[..|keys| - 1]);
      var k := keys[|keys| - 1];
      Set(d, k, Get(d, k, 0) + 1)
  }

  /** How many times x occurs in keys. */
  function Occurrences(keys: seq<string>, x: string): nat
    decreases |keys|
  {
    if keys == [] then 0
    else Occurrences(keys[..|keys| - 1], x) + (if keys[|keys| - 1] == x then 1 else 0)
  }

  /** Each key's count is the number of its occurrences, and a key that
      does not occur reads as the default. */
  lemma {:induction false} TallyCounts(keys: seq<string>, x: string)
    ensures forall dflt: nat ::
      Get(Tally(keys), x, dflt) == if Occurrences(keys, x) == 0 then dflt else Occurrences(keys, x)
    decreases |keys|
  {
    if keys != [] {
      var init, k := keys[..|keys| - 1], keys[|keys| - 1];
      TallyCounts(init, x);
      var d := Tally(init);
      forall dflt: nat ensures Get(Tally(keys), x, dflt) == if x == k then Get(d, k, 0) + 1 else Get(d, x, dflt) {
        GetSet(d, k, Get(d, k, 0) + 1, x, dflt);
      }
    }
  }

  /** The counts add up to the number of keys counted. */
  lemma {:induction false} TallyTotal(keys: seq<string>)
    ensures Total(Tally(keys)) == |keys|
    decreases |keys|
  {
    if keys != [] {
      var init, k := keys[..|keys| - 1], keys[|keys| - 1];
      TallyTotal(init);
      var d := Tally(init);
      TotalSet(d, k, Get(d, k, 0) + 1);
    }
  }

  /** The sources, file names and file types of a list of metadata. */
  function SourcesOf(ms: seq<Metadata>): (r: seq<string>)
    ensures |r| == |ms| && forall i :: 0 <= i < |ms| ==> r[i] == ExtractFileInfo(ms[i]).source
  {
    seq(|ms|, i requires 0 <= i < |ms| => ExtractFileInfo(ms[i]).source)
  }

  function FileNamesOf(ms: seq<Metadata>): (r: seq<string>)
    ensures |r| == |ms| && forall i :: 0 <= i < |ms| ==> r[i] == ExtractFileInfo(ms[i]).filename
  {
    seq(|ms|, i requires 0 <= i < |ms| => ExtractFileInfo(ms[i]).filename)
  }

  function FileTypesOf(ms: seq<Metadata>): (r: seq<string>)
    ensures |r| == |ms| && forall i :: 0 <= i < |ms| ==> r[i] == ExtractFileInfo(ms[i]).fileType
  {
    seq(|ms|, i requires 0 <= i < |ms| => ExtractFileInfo(ms[i]).fileType)
  }


  /** The counting loop of show_summary_table: chunks per source. */
  method CountChunksPerSource(metadatas: seq<Metadata>) returns (fileChunkCounts: Counter)
    ensures fileChunkCounts == Tally(SourcesOf(metadatas))
  {
    ghost var sources := SourcesOf(metadatas);
    fileChunkCounts := [];
    for i := 0 to |metadatas|
      invariant fileChunkCounts == Tally(sources[..i])
    {
      var source := ExtractFileInfo(metadatas[i]).source;
      TallyStepAt(sources, i, source);
      fileChunkCounts := Set(fileChunkCounts, source, Get(fileChunkCounts, source, 0) + 1);
    }
    assert sources[..|metadatas|] == sources;
  }

  /** The counting loop of show_files_breakdown: chunks per file name and
      per file type. */
  method FilesBreakdown(metadatas: seq<Metadata>) returns (fileStats: Counter, typeStats: Counter)
    ensures fileStats == Tally(FileNamesOf(metadatas))
    ensures typeStats == Tally(FileTypesOf(metadatas))
  {
    ghost var names, types := FileNamesOf(metadatas), FileTypesOf(metadatas);
    fileStats, typeStats := [], [];
    for i := 0 to |metadatas|
      invariant fileStats == Tally(names[..i])
      invariant typeStats == Tally(types[..i])
    {
      var info := ExtractFileInfo(metadatas[i]);
      TallyStepAt(names, i, info.filename);
      TallyStepAt(types, i, info.fileType);
      fileStats := Set(fileStats, info.filename, Get(fileStats, info.filename, 0) + 1);
      typeStats := Set(typeStats, info.fileType, Get(typeStats, info.fileType, 0) + 1);
    }
    assert names[..|metadatas|] == names;
    assert types[..|metadatas|] == types;
  }

  /** One more key, the i-th, for a counting loop. */
  lemma {:induction false} TallyStepAt(keys: seq<string>, i: nat, k: string)
    requires i < |keys| && keys[i] == k
    ensures Tally(keys[..i + 1]) == Set(Tally(keys[..i]), k, Get(Tally(keys[..i]), k, 0) + 1)
  {
    assert keys[..i + 1][..i] == keys[..i];
  }

  // ---------------------------------------------------------------------
  // The summary table
  // ---------------------------------------------------------------------

  /** A row of the summary table; the chunk column is chunkNumber/chunkTotal. */
  datatype Row = Row(number: nat, displayId: string, file: string, fileType: string,
                     chunkNumber: int, chunkTotal: nat, preview: string)

  /** min(limit, n) rows are shown; range() of a negative count is empty. */
  function DisplayCount(limit: int, n: nat): (r: nat)
    ensures r <= n && (limit >= 0 ==> r as int == if limit < n then limit else n)
    ensures limit < 0 ==> r == 0
  {
    if limit <= 0 then 0 else if limit < n then limit else n
  }

  /** metadata.get("chunk_id", 0). */
  function ChunkIdOf(m: Metadata): int {
    match m.chunkId
    case Some(c) => c
    case None => 0
  }

  /** The i-th row, given the per-source counter. */
  function RowAt(i: nat, docId: string, document: string, m: Metadata, counts: Counter): Row {
    var info := ExtractFileInfo(m);
    Row(i + 1, Truncate(docId, IdWidth), Truncate(info.filename, FileWidth), info.fileType,
        ChunkIdOf(m) + 1, Get(counts, info.source, 1), Preview(document))
  }

  /** The first n rows. */
  function RowsUpTo(n: nat, ids: seq<string>, documents: seq<string>, metadatas: seq<Metadata>, counts: Counter): (r: seq<Row>)
    requires n <= |ids| && |documents| == |ids| && |metadatas| == |ids|
    ensures |r| == n
  {
    if n == 0 then []
    else RowsUpTo(n - 1, ids, documents, metadatas, counts) + [RowAt(n - 1, ids[n - 1], documents[n - 1], metadatas[n - 1], counts)]
  }

  lemma {:induction false} RowsUpToAt(n: nat, ids: seq<string>, documents: seq<string>, metadatas: seq<Metadata>, counts: Counter, k: nat)
    requires n <= |ids| && |documents| == |ids| && |metadatas| == |ids| && k < n
    ensures RowsUpTo(n, ids, documents, metadatas, counts)[k] == RowAt(k, ids[k], documents[k], metadatas[k], counts)
  {
    var prev := RowsUpTo(n - 1, ids, documents, metadatas, counts);
    var last := RowAt(n - 1, ids[n - 1], documents[n - 1], metadatas[n - 1], counts);
    assert RowsUpTo(n, ids, documents, metadatas, counts) == prev + [last];
    if k < n - 1 {
      RowsUpToAt(n - 1, ids, documents, metadatas, counts, k);
      assert (prev + [last])[k] == prev[k];
    }
  }

  /** The rows of show_summary_table. */
  function SummaryRows(ids: seq<string>, documents: seq<string>, metadatas: seq<Metadata>, limit: int): seq<Row>
    requires |documents| == |ids| && |metadatas| == |ids|
  {
    RowsUpTo(DisplayCount(limit, |ids|), ids, documents, metadatas, Tally(SourcesOf(metadatas)))
  }

  /** show_summary_table without the printing: count the chunks per source,
      then build the first min(limit, n) rows. */
  method SummaryTable(ids: seq<string>, documents: seq<string>, metadatas: seq<Metadata>, limit: int)
    returns (rows: seq<Row>)
    requires |documents| == |ids| && |metadatas| == |ids|
    ensures rows == SummaryRows(ids, documents, metadatas, limit)
  {
    if |ids| == 0 {
      return [];
    }
    var fileChunkCounts := CountChunksPerSource(metadatas);
    var displayCount := if limit < |ids| then limit else |ids|;
    rows := [];
    var i := 0;
    while i < displayCount
      invariant 0 <= i <= DisplayCount(limit, |ids|)
      invariant rows == RowsUpTo(i, ids, documents, metadatas, fileChunkCounts)
    {
      var row := BuildRow(i, ids[i], documents[i], metadatas[i], fileChunkCounts);
      RowsUpToStep(i, ids, documents, metadatas, fileChunkCounts);
      rows := rows + [row];
      i := i + 1;
    }
    assert i == DisplayCount(limit, |ids|);
  }

  lemma {:induction false} RowsUpToStep(i: nat, ids: seq<string>, documents: seq<string>, metadatas: seq<Metadata>, counts: Counter)
    requires i < |ids| && |documents| == |ids| && |metadatas| == |ids|
    ensures RowsUpTo(i + 1, ids, documents, metadatas, counts) ==
      RowsUpTo(i, ids, documents, metadatas, counts) + [RowAt(i, ids[i], documents[i], metadatas[i], counts)]
  {
  }

  /** The body of the row loop of show_summary_table, step by step as the
      loop writes it (each truncation and the preview in turn); RowAt is the
      same row as one expression, and the ensures ties the two together. */
  method BuildRow(i: nat, docId: string, document: string, metadata: Metadata, fileChunkCounts: Counter)
    returns (row: Row)
    ensures row == RowAt(i, docId, document, metadata, fileChunkCounts)
  {
    var info := ExtractFileInfo(metadata);
    var filename := info.filename;
    if |filename| > 32 {
      filename := filename[..29] + "...";
    }
    var chunkInfo := (ChunkIdOf(metadata) + 1, Get(fileChunkCounts, info.source, 1));
    var preview := if |document| > 40 then document[..37] + "..." else document;
    preview := ReplaceAll(ReplaceAll(preview, "\n", " "), "\r", " ");
    var displayId := if |docId| > 25 then docId[..22] + "..." else docId;
    row := Row(i + 1, displayId, filename, info.fileType, chunkInfo.0, chunkInfo.1, preview);
  }

  /** The table has min(limit, n) rows, numbered from 1; every cell fits
      its width; and the chunk total of each row is the number of chunks of
      its source, never the fallback of 1. */
  lemma {:induction false} SummaryRowsShape(ids: seq<string>, documents: seq<string>, metadatas: seq<Metadata>, limit: int)
    requires |documents| == |ids| && |metadatas| == |ids|
    ensures var rows := SummaryRows(ids, documents, metadatas, limit);
      |rows| == DisplayCount(limit, |ids|) &&
      forall i :: 0 <= i < |rows| ==>
        rows[i].number == i + 1 && |rows[i].displayId| <= IdWidth && |rows[i].file| <= FileWidth &&
        |rows[i].preview| <= PreviewWidth && '\n' !in rows[i].preview && '\r' !in rows[i].preview &&
        rows[i].chunkTotal == Occurrences(SourcesOf(metadatas), ExtractFileInfo(metadatas[i]).source) >= 1
  {
    var rows := SummaryRows(ids, documents, metadatas, limit);
    var sources := SourcesOf(metadatas);
    forall i | 0 <= i < |rows|
      ensures rows[i] == RowAt(i, ids[i], documents[i], metadatas[i], Tally(sources))
    {
      RowsUpToAt(|rows|, ids, documents, metadatas, Tally(sources), i);
    }
    forall i | 0 <= i < |rows|
      ensures rows[i].number == i + 1 && |rows[i].displayId| <= IdWidth && |rows[i].file| <= FileWidth
      ensures |rows[i].preview| <= PreviewWidth && '\n' !in rows[i].preview && '\r' !in rows[i].preview
      ensures rows[i].chunkTotal == Occurrences(sources, ExtractFileInfo(metadatas[i]).source) >= 1
    {
      var src := sources[i];
      TruncateFits(ids[i], IdWidth);
      TruncateFits(ExtractFileInfo(metadatas[i]).filename, FileWidth);
      PreviewShape(documents[i]);
      TallyCounts(sources, src);
      OccursCounted(sources, i);
    }
  }

  /** A key at position i of keys occurs at least once. */
  lemma {:induction false} OccursCounted(keys: seq<string>, i: nat)
    requires i < |keys|
    ensures Occurrences(keys, keys[i]) >= 1
    decreases |keys|
  {
    if i < |keys| - 1 {
      OccursCounted(keys[..|keys| - 1], i);
    }
  }
}
