/** One run of `fetchFontFiles`: fetch every format of every variant, add each fetched file to a zip
    archive, write the archive to the cache directory, and on a failed write release every stream. */
module FontArchive {
  import opened Wrappers
  import opened FontTypes
  import opened FontPaths
  import opened Lists
  import opened Streams
  import opened Zip
  import opened FanOut

  /** The record a run returns (`ISubsetFontArchive`): the path of the zip archive and one entry per
      fetched file; `paths` grows as fetches complete. */
  class SubsetFontArchive {
    const zippedFileName: string
    var paths: seq<FontFilePath>

    constructor (zippedFileName: string)
      ensures this.zippedFileName == zippedFileName && paths == []
    {
      this.zippedFileName := zippedFileName;
      paths := [];
    }

    /** `paths.push(p)`. */
    method Push(p: FontFilePath)
      modifies this
      ensures paths == old(paths) + [p]
    {
      paths := paths + [p];
    }
  }

  /** The cleanup after a failed archive write: destroys every stream of the list, in order. */
  method DestroyAll(streams: seq<Stream>)
    modifies set s | s in streams
    ensures forall s :: s in streams ==> s.destroyed
  {
    for i := 0 to |streams|
      invariant forall k :: 0 <= k < i ==> streams[k].destroyed
    {
      streams[i].Destroy();
    }
  }

  /** The completion of one fetch: a successful one adds its file to the archive under the base name
      of its cache path and then pushes its `paths` record; a failed one is discarded. */
  method RecordFetch(req: FontRequest, t: Task, archive: SubsetFontArchive, zip: ZipArchive)
    modifies archive, zip
    ensures archive.paths == old(archive.paths) + if t.outcome.Some? then [Record(req, t)] else []
    ensures zip.entries == if t.outcome.Some? then old(zip.entries)[EntryName(req, t) := t.outcome.value] else old(zip.entries)
  {
    var filename := CachedFontPath(req, t.variant.id, t.source.format);
    match t.outcome {
      case None =>
      case Some(stream) =>
        zip.File(Basename(filename), stream);
        archive.Push(FontFilePath(t.variant.id, t.source.format, filename));
    }
  }

  /** The completion side of the fan-out: each fetch is recorded as it completes, in the order of
      `completed`. */
  method RecordFetches(req: FontRequest, completed: seq<Task>, archive: SubsetFontArchive, zip: ZipArchive)
    requires archive.paths == [] && zip.entries == map[]
    modifies archive, zip
    ensures archive.paths == Records(req, completed)
    ensures zip.entries == Entries(req, completed)
  {
    var i := 0;
    while i < |completed|
      invariant 0 <= i <= |completed|
      invariant archive.paths == Records(req, completed[..i])
      invariant zip.entries == Entries(req, completed[..i])
    {
      var t := completed[i];
      RecordFetch(req, t, archive, zip);
      assert completed[..i + 1] == completed[..i] + [t];
      RecordsSnoc(req, completed[..i], t);
      EntriesSnoc(req, completed[..i], t);
      i := i + 1;
    }
    assert completed[..i] == completed;
  }

  /** Writing the archive to its cache file: on a write error every stream of the run is destroyed
      and the error is returned; otherwise the archive record is returned and no stream is touched. */
  method WriteArchive(archive: SubsetFontArchive, streams: seq<Stream>, writeError: Option<string>)
    returns (result: Result<SubsetFontArchive, string>)
    modifies set s | s in streams
    ensures result.Failure? <==> writeError.Some?
    ensures writeError.Some? ==> result.error == writeError.value && forall s :: s in streams ==> s.destroyed
    ensures writeError.None? ==> result.value == archive && unchanged(archive)
    ensures writeError.None? ==> forall s :: s in streams ==> s.destroyed == old(s.destroyed)
  {
    match writeError {
      case Some(e) =>
        DestroyAll(streams);
        result := Failure(e);
      case None =>
        result := Success(archive);
    }
  }

  /** The fan-out phase of a run: the archive record with its `paths`, the zip archive's entries, and
      the stream list to release on failure: the fetched streams in input order, then the freshly
      opened write stream of the zip file. */
  method CollectFetches(req: FontRequest, variants: seq<Variant>, outcomes: seq<seq<Option<Stream>>>, completed: seq<Task>)
    returns (archive: SubsetFontArchive, fetched: seq<Stream>, target: Stream, ghost entries: map<string, Stream>)
    requires WellShaped(variants, outcomes)
    requires multiset(completed) == multiset(Tasks(variants, outcomes))
    ensures fresh(archive) && archive.zippedFileName == ZippedFileName(req, variants)
    ensures archive.paths == Records(req, completed)
    ensures multiset(archive.paths) == multiset(Records(req, Tasks(variants, outcomes)))
    ensures entries == Entries(req, completed)
    ensures entries.Keys == EntryNames(Records(req, Tasks(variants, outcomes)))
    ensures DistinctEntryNames(Records(req, Tasks(variants, outcomes))) ==>
              |entries| == |Records(req, Tasks(variants, outcomes))|
    ensures fetched == Compact(Flatten(outcomes)) == Compact(Outcomes(Tasks(variants, outcomes)))
    ensures |fetched| == |Records(req, Tasks(variants, outcomes))|
    ensures fresh(target) && !target.destroyed
    ensures EverySuccessRecorded(req, variants, outcomes, archive.paths)
  {
    archive := new SubsetFontArchive(ZippedFileName(req, variants));
    var zip := new ZipArchive();
    RecordFetches(req, completed, archive, zip);
    entries := zip.entries;
    fetched := Compact(Flatten(outcomes));
    target := new Stream.Open();
    FanOutAccounting(req, variants, outcomes, completed);
    forall i, j | 0 <= i < |variants| && 0 <= j < |variants[i].urls| && outcomes[i][j].Some?
      ensures PairRecord(req, variants[i], variants[i].urls[j]) in Records(req, completed)
    {
      SuccessfulPairRecorded(req, variants, outcomes, completed, i, j);
    }
  }

  /** `fetchFontFiles(fontID, fontVersion, subsets, variants)`, with the cache directory in `req`.
      The environment is given as inputs: `outcomes[i][j]` is what the retried fetch of
      `variants[i].urls[j]` produced (a stream, or `None` when it failed); `completed` is the order in
      which the concurrent fetches completed, a permutation of the fetches; `writeError` is the
      error of writing the archive to disk, `None` when the write succeeded.
      `openStreams` and `archiveEntries` report the stream list and the archive the run built. */
  method FetchFontFiles(req: FontRequest, variants: seq<Variant>, outcomes: seq<seq<Option<Stream>>>,
                        completed: seq<Task>, writeError: Option<string>)
    returns (result: Result<SubsetFontArchive, string>,
             ghost openStreams: seq<Stream>, ghost archiveEntries: map<string, Stream>)
    requires WellShaped(variants, outcomes)
    requires multiset(completed) == multiset(Tasks(variants, outcomes))
    modifies set s | s in Compact(Flatten(outcomes))
    // the streams: the fetched ones in input order, then the zip file's own write stream
    ensures |openStreams| == |Records(req, Tasks(variants, outcomes))| + 1
    ensures openStreams[..|openStreams| - 1] == Compact(Outcomes(Tasks(variants, outcomes)))
    ensures fresh(openStreams[|openStreams| - 1])
    // the archive: one entry per fetched file, named by the base name of its cache path
    ensures archiveEntries == Entries(req, completed)
    ensures archiveEntries.Keys == EntryNames(Records(req, Tasks(variants, outcomes)))
    ensures DistinctEntryNames(Records(req, Tasks(variants, outcomes))) ==>
              |archiveEntries| == |Records(req, Tasks(variants, outcomes))|
    // a failed fetch never fails the run: only the archive write can
    ensures result.Failure? <==> writeError.Some?
    ensures writeError.Some? ==> result.error == writeError.value
    ensures writeError.Some? ==> forall s :: s in openStreams ==> s.destroyed
    ensures writeError.None? ==> !openStreams[|openStreams| - 1].destroyed
    ensures writeError.None? ==>
              && fresh(result.value)
              && result.value.zippedFileName == ZippedFileName(req, variants)
              && result.value.paths == Records(req, completed)
              && multiset(result.value.paths) == multiset(Records(req, Tasks(variants, outcomes)))
              && EverySuccessRecorded(req, variants, outcomes, result.value.paths)
              && forall i, j :: 0 <= i < |outcomes| && 0 <= j < |outcomes[i]| && outcomes[i][j].Some? ==>
                   outcomes[i][j].value.destroyed == old(outcomes[i][j].value.destroyed)
  {
    var archive, fetched, target, entries := CollectFetches(req, variants, outcomes, completed);
    var streams := fetched + [target];
    assert forall s :: s in streams ==> s in fetched || s == target;
    openStreams := streams;
    archiveEntries := entries;
    FetchedStreamsKept(outcomes);
    result := WriteArchive(archive, streams, writeError);
    assert streams[..|streams| - 1] == fetched;
    if writeError.None? {
      assert result.value == archive && archive.paths == Records(req, completed);
    }
  }
}
