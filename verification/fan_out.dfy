/** The fan-out of one run: one fetch per (variant, url) pair, each ending with a stream or with
    the pair discarded, and what the successful fetches leave behind: one `paths` record and one
    archive entry each. */
module FanOut {
  import opened Wrappers
  import opened FontTypes
  import opened FontPaths
  import opened Lists
  import opened Streams

  /** One fetch of the fan-out: the variant, the candidate source, and the stream the retried fetch
      produced, or `None` when it failed and the pair was discarded. */
  datatype Task = Task(variant: Variant, source: VariantUrl, outcome: Option<Stream>)

  /** `outcomes` has one entry per candidate source of every variant. */
  ghost predicate WellShaped(variants: seq<Variant>, outcomes: seq<seq<Option<Stream>>>)
  {
    |outcomes| == |variants| && forall i :: 0 <= i < |variants| ==> |outcomes[i]| == |variants[i].urls|
  }

  /** The fetches of one variant, in the order of its sources. */
  function VariantTasks(v: Variant, outs: seq<Option<Stream>>): (ts: seq<Task>)
    requires |outs| == |v.urls|
    ensures Outcomes(ts) == outs
    ensures forall j :: 0 <= j < |ts| ==> ts[j].variant == v && ts[j].source in v.urls
  {
    seq(|outs|, j requires 0 <= j < |outs| => Task(v, v.urls[j], outs[j]))
  }

  /** All fetches of a run in input order: variant by variant, and source by source within a variant. */
  function Tasks(variants: seq<Variant>, outcomes: seq<seq<Option<Stream>>>): (ts: seq<Task>)
    requires WellShaped(variants, outcomes)
    ensures forall k :: 0 <= k < |ts| ==> ts[k].variant in variants && ts[k].source in ts[k].variant.urls
  {
    if |variants| == 0 then []
    else
      var head := VariantTasks(variants[0], outcomes[0]);
      var tail := Tasks(variants[1..], outcomes[1..]);
      assert forall v :: v in variants[1..] ==> v in variants;
      var ts := head + tail;
      assert forall k :: |head| <= k < |ts| ==> ts[k] == tail[k - |head|];
      ts
  }

  /** What each fetch returned, in the order of `ts`: a stream, or null for a discarded pair. */
  function Outcomes(ts: seq<Task>): seq<Option<Stream>>
  {
    seq(|ts|, k requires 0 <= k < |ts| => ts[k].outcome)
  }

  /** The `paths` record a successful fetch adds. */
  function Record(req: FontRequest, t: Task): (r: FontFilePath)
    ensures r.variant == t.variant.id && r.format == t.source.format
    ensures |r.path| > |r.format| && r.path[|r.path| - |r.format| - 1] == '.' && r.path[|r.path| - |r.format|..] == r.format
  {
    CachedFontPathShape(req, t.variant.id, t.source.format);
    PairRecord(req, t.variant, t.source)
  }

  /** The `paths` record of a fetch of `u` for variant `v`. */
  function PairRecord(req: FontRequest, v: Variant, u: VariantUrl): FontFilePath
  {
    FontFilePath(v.id, u.format, CachedFontPath(req, v.id, u.format))
  }

  /** The archive entry name of a fetch: the base name of its cache path. */
  function EntryName(req: FontRequest, t: Task): (name: string)
    ensures Separator !in name
  {
    Basename(CachedFontPath(req, t.variant.id, t.source.format))
  }

  /** The `paths` records left by the fetches `ts`, completed in that order: one for each success. */
  function Records(req: FontRequest, ts: seq<Task>): (r: seq<FontFilePath>)
    ensures |r| <= |ts|
  {
    if |ts| == 0 then []
    else
      var t := ts[|ts| - 1];
      Records(req, ts[..|ts| - 1]) + (if t.outcome.Some? then [Record(req, t)] else [])
  }

  /** The archive entries left by the fetches `ts`, completed in that order: a later entry of the same
      name replaces an earlier one. */
  function Entries(req: FontRequest, ts: seq<Task>): (m: map<string, Stream>)
    ensures forall name :: name in m ==> Separator !in name
  {
    if |ts| == 0 then map[]
    else
      var t := ts[|ts| - 1];
      var e := Entries(req, ts[..|ts| - 1]);
      if t.outcome.Some? then e[EntryName(req, t) := t.outcome.value] else e
  }

  /** One more completed fetch adds its record when it succeeded. */
  lemma RecordsSnoc(req: FontRequest, ts: seq<Task>, t: Task)
    ensures Records(req, ts + [t]) == Records(req, ts) + if t.outcome.Some? then [Record(req, t)] else []
  {
    assert (ts + [t])[..|ts|] == ts;
  }

  /** One more completed fetch sets its entry when it succeeded. */
  lemma EntriesSnoc(req: FontRequest, ts: seq<Task>, t: Task)
    ensures Entries(req, ts + [t]) == if t.outcome.Some? then Entries(req, ts)[EntryName(req, t) := t.outcome.value] else Entries(req, ts)
  {
    assert (ts + [t])[..|ts|] == ts;
  }

  /** The entry names of a list of records. */
  function EntryNames(recs: seq<FontFilePath>): set<string>
  {
    set r | r in recs :: Basename(r.path)
  }

  /** No two records share an archive entry name. */
  ghost predicate DistinctEntryNames(recs: seq<FontFilePath>)
  {
    forall i, j :: 0 <= i < j < |recs| ==> Basename(recs[i].path) != Basename(recs[j].path)
  }

  /** Every stream some fetch produced is among the streams the run keeps. */
  lemma FetchedStreamsKept(outcomes: seq<seq<Option<Stream>>>)
    ensures forall i, j :: 0 <= i < |outcomes| && 0 <= j < |outcomes[i]| && outcomes[i][j].Some? ==>
              outcomes[i][j].value in Compact(Flatten(outcomes))
  {
    forall i, j | 0 <= i < |outcomes| && 0 <= j < |outcomes[i]| && outcomes[i][j].Some?
      ensures outcomes[i][j].value in Compact(Flatten(outcomes))
    {
      CompactMember(Flatten(outcomes), outcomes[i][j].value);
    }
  }

  /** Flattening the per-variant results of the fan-out lists the fetches in input order. */
  lemma {:induction false} FlattenIsTaskOrder(variants: seq<Variant>, outcomes: seq<seq<Option<Stream>>>)
    requires WellShaped(variants, outcomes)
    ensures Flatten(outcomes) == Outcomes(Tasks(variants, outcomes))
  {
    if |variants| > 0 {
      var head := VariantTasks(variants[0], outcomes[0]);
      var tail := Tasks(variants[1..], outcomes[1..]);
      FlattenIsTaskOrder(variants[1..], outcomes[1..]);
      assert Outcomes(head) == outcomes[0];
      assert Outcomes(head + tail) == Outcomes(head) + Outcomes(tail);
    }
  }

  /** Each success leaves one record and one stream: as many records as the fetches kept streams. */
  lemma {:induction false} RecordsMatchStreams(req: FontRequest, ts: seq<Task>)
    ensures |Records(req, ts)| == |Compact(Outcomes(ts))|
  {
    if |ts| > 0 {
      var init := ts[..|ts| - 1];
      var t := ts[|ts| - 1];
      RecordsMatchStreams(req, init);
      assert Outcomes(ts) == Outcomes(init) + [t.outcome];
      CompactConcat(Outcomes(init), [t.outcome]);
      assert Compact([t.outcome]) == (if t.outcome.Some? then [t.outcome.value] else []);
    }
  }

  /** The records of two batches of completions, one after the other, are the records of each. */
  lemma {:induction false} RecordsConcat(req: FontRequest, a: seq<Task>, b: seq<Task>)
    ensures Records(req, a + b) == Records(req, a) + Records(req, b)
    decreases |b|
  {
    if |b| == 0 {
      assert a + b == a;
    } else {
      var b' := b[..|b| - 1];
      assert (a + b)[..|a + b| - 1] == a + b';
      RecordsConcat(req, a, b');
    }
  }

  /** A fetch touches only its own record: a failed one adds nothing and takes nothing from the
      fetches completed before or after it; a successful one adds exactly its record. */
  lemma {:induction false} RecordsOfOneTask(req: FontRequest, a: seq<Task>, t: Task, b: seq<Task>)
    ensures t.outcome.None? ==> Records(req, a + [t] + b) == Records(req, a) + Records(req, b)
    ensures t.outcome.Some? ==> Records(req, a + [t] + b) == Records(req, a) + [Record(req, t)] + Records(req, b)
  {
    calc {
      Records(req, a + [t] + b);
      { RecordsConcat(req, a + [t], b); }
      Records(req, a + [t]) + Records(req, b);
      { RecordsConcat(req, a, [t]); }
      Records(req, a) + Records(req, [t]) + Records(req, b);
    }
    RecordsOfSingle(req, t);
  }

  /** The records of a single fetch: its record when it succeeded, none when it failed. */
  lemma RecordsOfSingle(req: FontRequest, t: Task)
    ensures Records(req, [t]) == if t.outcome.Some? then [Record(req, t)] else []
  {
    assert [t][..0] == [];
  }

  /** A task of a permutation can be taken out of it, leaving a permutation of the rest. */
  lemma TakeOut(s': seq<Task>, x: Task, t: seq<Task>) returns (m: nat)
    requires multiset(s' + [x]) == multiset(t)
    ensures m < |t| && t[m] == x && t == t[..m] + [x] + t[m + 1..]
    ensures multiset(t[..m] + t[m + 1..]) == multiset(s')
  {
    assert x in multiset(s' + [x]);
    assert x in t;
    m :| 0 <= m < |t| && t[m] == x;
    var a, b := t[..m], t[m + 1..];
    assert t == a + [x] + b;
    calc {
      multiset(s');
      multiset(s' + [x]) - multiset{x};
      multiset(t) - multiset{x};
      { assert t == (a + b)[..m] + [x] + (a + b)[m..]; }
      (multiset(a + b) + multiset{x}) - multiset{x};
      multiset(a + b);
    }
  }

  /** Taking one task out of a completion order takes its records out, wherever it stood. */
  lemma RecordsWithout(req: FontRequest, a: seq<Task>, x: Task, b: seq<Task>)
    ensures multiset(Records(req, a + [x] + b)) == multiset(Records(req, a + b)) + multiset(Records(req, [x]))
  {
    RecordsConcat(req, a + [x], b);
    RecordsConcat(req, a, [x]);
    RecordsConcat(req, a, b);
  }

  /** The records do not depend on the order in which the fetches complete, up to permutation. */
  lemma {:induction false} RecordsPermutation(req: FontRequest, s: seq<Task>, t: seq<Task>)
    requires multiset(s) == multiset(t)
    ensures multiset(Records(req, s)) == multiset(Records(req, t))
    decreases |s|
  {
    if |s| == 0 {
      assert |t| == |multiset(t)| == 0;
    } else {
      var x := s[|s| - 1];
      var s' := s[..|s| - 1];
      assert s == s' + [x];
      var m := TakeOut(s', x, t);
      var a, b := t[..m], t[m + 1..];
      RecordsPermutation(req, s', a + b);
      RecordsWithout(req, a, x, b);
      RecordsConcat(req, s', [x]);
    }
  }

  /** A record is left exactly when some fetch succeeded for its variant and format. */
  lemma {:induction false} RecordsAreSuccesses(req: FontRequest, ts: seq<Task>, r: FontFilePath)
    ensures r in Records(req, ts) <==> exists t :: t in ts && t.outcome.Some? && r == Record(req, t)
  {
    if |ts| > 0 {
      var init := ts[..|ts| - 1];
      var last := ts[|ts| - 1];
      RecordsAreSuccesses(req, init, r);
      assert forall t :: t in ts <==> t in init || t == last;
    }
  }

  /** Every record names a variant of the run and one of that variant's declared formats, and its
      path is the cache path of that pair. */
  lemma RecordsFromVariants(req: FontRequest, variants: seq<Variant>, outcomes: seq<seq<Option<Stream>>>, r: FontFilePath)
    requires WellShaped(variants, outcomes)
    requires r in Records(req, Tasks(variants, outcomes))
    ensures exists v, u :: v in variants && u in v.urls
              && r == FontFilePath(v.id, u.format, CachedFontPath(req, v.id, u.format))
  {
    RecordsAreSuccesses(req, Tasks(variants, outcomes), r);
    var ts := Tasks(variants, outcomes);
    var t :| t in ts && t.outcome.Some? && r == Record(req, t);
    var k :| 0 <= k < |ts| && ts[k] == t;
    assert t.variant in variants && t.source in t.variant.urls;
  }

  /** Every (variant, url) pair of the run is fetched, with its own outcome. */
  lemma {:induction false} PairIsFetched(variants: seq<Variant>, outcomes: seq<seq<Option<Stream>>>, i: int, j: int)
    requires WellShaped(variants, outcomes)
    requires 0 <= i < |variants| && 0 <= j < |variants[i].urls|
    ensures Task(variants[i], variants[i].urls[j], outcomes[i][j]) in Tasks(variants, outcomes)
  {
    var head := VariantTasks(variants[0], outcomes[0]);
    var tail := Tasks(variants[1..], outcomes[1..]);
    assert Tasks(variants, outcomes) == head + tail;
    if i > 0 {
      PairIsFetched(variants[1..], outcomes[1..], i - 1, j);
      assert variants[1..][i - 1] == variants[i] && outcomes[1..][i - 1] == outcomes[i];
      assert Task(variants[i], variants[i].urls[j], outcomes[i][j]) in tail;
    } else {
      assert head[j] == Task(variants[i], variants[i].urls[j], outcomes[i][j]);
    }
  }

  /** A pair whose fetch succeeded leaves its record `{variant.id, url.format, filename}`, whatever
      order the fetches complete in. */
  lemma SuccessfulPairRecorded(req: FontRequest, variants: seq<Variant>, outcomes: seq<seq<Option<Stream>>>,
                               completed: seq<Task>, i: int, j: int)
    requires WellShaped(variants, outcomes)
    requires multiset(completed) == multiset(Tasks(variants, outcomes))
    requires 0 <= i < |variants| && 0 <= j < |variants[i].urls| && outcomes[i][j].Some?
    ensures PairRecord(req, variants[i], variants[i].urls[j]) in Records(req, completed)
  {
    var t := Task(variants[i], variants[i].urls[j], outcomes[i][j]);
    PairIsFetched(variants, outcomes, i, j);
    assert t in multiset(completed);
    RecordsAreSuccesses(req, completed, Record(req, t));
  }

  /** Every pair whose fetch succeeded has its record among `paths`. */
  ghost predicate EverySuccessRecorded(req: FontRequest, variants: seq<Variant>, outcomes: seq<seq<Option<Stream>>>,
                                       paths: seq<FontFilePath>)
    requires WellShaped(variants, outcomes)
  {
    forall i, j :: 0 <= i < |variants| && 0 <= j < |variants[i].urls| && outcomes[i][j].Some? ==>
      PairRecord(req, variants[i], variants[i].urls[j]) in paths
  }

  /** A pair whose fetch succeeded has an archive entry under the base name of its cache path. */
  lemma SuccessfulPairHasEntry(req: FontRequest, variants: seq<Variant>, outcomes: seq<seq<Option<Stream>>>,
                               completed: seq<Task>, i: int, j: int)
    requires WellShaped(variants, outcomes)
    requires multiset(completed) == multiset(Tasks(variants, outcomes))
    requires 0 <= i < |variants| && 0 <= j < |variants[i].urls| && outcomes[i][j].Some?
    ensures Basename(CachedFontPath(req, variants[i].id, variants[i].urls[j].format)) in Entries(req, completed)
  {
    SuccessfulPairRecorded(req, variants, outcomes, completed, i, j);
    EntriesNameRecords(req, completed);
  }

  /** The archive holds one entry per distinct entry name of the records. */
  lemma {:induction false} EntriesNameRecords(req: FontRequest, ts: seq<Task>)
    ensures Entries(req, ts).Keys == EntryNames(Records(req, ts))
  {
    if |ts| > 0 {
      var init := ts[..|ts| - 1];
      var t := ts[|ts| - 1];
      EntriesNameRecords(req, init);
      if t.outcome.Some? {
        assert Basename(Record(req, t).path) == EntryName(req, t);
        assert EntryNames(Records(req, init) + [Record(req, t)])
            == EntryNames(Records(req, init)) + {EntryName(req, t)};
      }
    }
  }

  /** Every archive entry reads the stream of a successful fetch with that entry name. */
  lemma {:induction false} EntriesFromSuccesses(req: FontRequest, ts: seq<Task>, name: string)
    requires name in Entries(req, ts)
    ensures exists t :: t in ts && t.outcome == Some(Entries(req, ts)[name]) && EntryName(req, t) == name
  {
    var init := ts[..|ts| - 1];
    var t := ts[|ts| - 1];
    assert t in ts;
    if !(t.outcome.Some? && EntryName(req, t) == name) {
      EntriesFromSuccesses(req, init, name);
      var u :| u in init && u.outcome == Some(Entries(req, init)[name]) && EntryName(req, u) == name;
      assert u in ts;
    }
  }

  /** When no two records share an entry name, there are as many names as records. */
  lemma {:induction false} DistinctEntryNamesCount(recs: seq<FontFilePath>)
    requires DistinctEntryNames(recs)
    ensures |EntryNames(recs)| == |recs|
  {
    if |recs| > 0 {
      var init := recs[..|recs| - 1];
      var last := recs[|recs| - 1];
      assert DistinctEntryNames(init);
      DistinctEntryNamesCount(init);
      assert EntryNames(recs) == EntryNames(init) + {Basename(last.path)};
      assert Basename(last.path) !in EntryNames(init);
    }
  }

  /** What a whole fan-out leaves behind, whatever order its fetches complete in: the kept streams
      are the successful fetches' streams in input order, one per record; the records are those of
      the input order, permuted; the archive has one entry per entry name of the records, and one
      per record when those names are distinct. */
  lemma FanOutAccounting(req: FontRequest, variants: seq<Variant>, outcomes: seq<seq<Option<Stream>>>, completed: seq<Task>)
    requires WellShaped(variants, outcomes)
    requires multiset(completed) == multiset(Tasks(variants, outcomes))
    ensures Compact(Flatten(outcomes)) == Compact(Outcomes(Tasks(variants, outcomes)))
    ensures |Compact(Flatten(outcomes))| == |Records(req, Tasks(variants, outcomes))|
    ensures multiset(Records(req, completed)) == multiset(Records(req, Tasks(variants, outcomes)))
    ensures Entries(req, completed).Keys == EntryNames(Records(req, Tasks(variants, outcomes)))
    ensures DistinctEntryNames(Records(req, Tasks(variants, outcomes))) ==>
              |Entries(req, completed)| == |Records(req, Tasks(variants, outcomes))|
  {
    var inOrder := Tasks(variants, outcomes);
    FlattenIsTaskOrder(variants, outcomes);
    RecordsMatchStreams(req, inOrder);
    RecordsPermutation(req, completed, inOrder);
    EntriesNameRecords(req, completed);
    assert EntryNames(Records(req, completed)) == EntryNames(Records(req, inOrder)) by {
      forall r ensures r in Records(req, completed) <==> r in Records(req, inOrder) {
        assert r in Records(req, completed) <==> r in multiset(Records(req, completed));
      }
    }
    if DistinctEntryNames(Records(req, inOrder)) {
      DistinctEntryNamesCount(Records(req, inOrder));
    }
  }

  /** A run of a single variant fetches that variant's sources in order. */
  lemma TasksOfOneVariant(v: Variant, outs: seq<Option<Stream>>)
    requires |outs| == |v.urls|
    ensures Tasks([v], [outs]) == VariantTasks(v, outs)
  {
    assert [v][1..] == [] && [outs][1..] == [];
  }

  /** A variant "regular" whose woff2 fetch succeeds and whose ttf fetch fails (say with a 404)
      leaves exactly one record, for woff2. */
  lemma RegularWoff2OnlyScenario(req: FontRequest, subsets: seq<string>, woff2Url: string, ttfUrl: string, body: Stream)
    ensures var regular := Variant("regular", subsets, [VariantUrl(woff2Url, "woff2"), VariantUrl(ttfUrl, "ttf")]);
            Records(req, Tasks([regular], [[Some(body), None]]))
              == [FontFilePath("regular", "woff2", CachedFontPath(req, "regular", "woff2"))]
  {
    var regular := Variant("regular", subsets, [VariantUrl(woff2Url, "woff2"), VariantUrl(ttfUrl, "ttf")]);
    var outs := [[Some(body), None]];
    var ts := Tasks([regular], outs);
    assert [regular][1..] == [] && outs[1..] == [];
    assert ts == VariantTasks(regular, outs[0]) + Tasks([], []);
    assert ts == [Task(regular, regular.urls[0], Some(body)), Task(regular, regular.urls[1], None)];
    assert ts[..1][..0] == [];
  }

  /** A variant that lists the same format twice, both fetches succeeding, leaves two records but a
      single archive entry: the second file replaces the first under the same name. */
  lemma RepeatedFormatSharesEntry(req: FontRequest, v: Variant, first: Stream, second: Stream)
    requires |v.urls| == 2 && v.urls[0].format == v.urls[1].format
    ensures |Records(req, Tasks([v], [[Some(first), Some(second)]]))| == 2
    ensures |Entries(req, Tasks([v], [[Some(first), Some(second)]]))| == 1
  {
    var outs := [Some(first), Some(second)];
    var ts := Tasks([v], [outs]);
    var t0, t1 := Task(v, v.urls[0], Some(first)), Task(v, v.urls[1], Some(second));
    assert ts == [t0, t1] && Outcomes(ts) == outs by {
      TasksOfOneVariant(v, outs);
    }
    assert EntryName(req, t1) == EntryName(req, t0);
    LaterEntryReplaces(req, t0, t1);
  }

  /** Two successful fetches with the same entry name leave one entry: the later one's stream. */
  lemma LaterEntryReplaces(req: FontRequest, t0: Task, t1: Task)
    requires t0.outcome.Some? && t1.outcome.Some? && EntryName(req, t0) == EntryName(req, t1)
    ensures Entries(req, [t0, t1]) == map[EntryName(req, t1) := t1.outcome.value]
  {
    var name := EntryName(req, t0);
    assert Entries(req, [t0]) == map[name := t0.outcome.value] by {
      assert [t0][..0] == [];
    }
    assert [t0, t1][..1] == [t0];
    assert map[name := t0.outcome.value][name := t1.outcome.value] == map[name := t1.outcome.value];
  }
}
