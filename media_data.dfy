/**
 * The data hook (src/hooks/useMediaData.js): the two lists of rows, their enrichment with
 * metadata in consecutive batches of eight, the merge that lets the sheet's own values win,
 * and the correction of one title after the user picked another match.
 *
 * The lookups inside a batch, which the application starts together, are made here one after
 * the other, in the positional order the combined answer keeps.
 */
module MediaHook {
  import opened Wrappers
  import opened Records
  import opened Tmdb

  const BATCH_SIZE: nat := 8

  /** The three fields a metadata record only fills when the sheet left them empty. */
  const FILLED: set<string> := {"posterUrl", "backdropUrl", "overview"}

  /** The answer of one lookup, for the row at `index`. */
  datatype Update = Update(index: nat, tmdb: Payload)

  function Min(a: int, b: int): int {
    if a < b then a else b
  }

  // ---------------------------------------------------------------- the merge

  /**
   * The merged entry of a batch update: every sheet field wins over the metadata field of the
   * same name, except that the poster, backdrop and overview fall back on the metadata when the
   * sheet's value is falsy, and the rating is always the metadata's.
   */
  function Merge(existing: Record, tmdb: Record): (m: Record)
    ensures m.Keys == existing.Keys + tmdb.Keys + FILLED + {"tmdbRating"}
    ensures forall f :: f in existing && f !in FILLED && f != "tmdbRating" ==> m[f] == existing[f]
    ensures forall f :: f in tmdb && f !in existing && f !in FILLED ==> m[f] == tmdb[f]
    ensures forall f :: f in FILLED && Truthy(Get(existing, f)) ==> m[f] == existing[f]
    ensures forall f :: f in FILLED && !Truthy(Get(existing, f)) ==> m[f] == Get(tmdb, f)
    ensures m["tmdbRating"] == Get(tmdb, "tmdbRating")
  {
    (tmdb + existing)[
      "posterUrl" := Or(Get(existing, "posterUrl"), Get(tmdb, "posterUrl"))][
      "backdropUrl" := Or(Get(existing, "backdropUrl"), Get(tmdb, "backdropUrl"))][
      "overview" := Or(Get(existing, "overview"), Get(tmdb, "overview"))][
      "tmdbRating" := Get(tmdb, "tmdbRating")]
  }

  /** Merging the same metadata a second time changes nothing. */
  lemma MergeIdempotent(existing: Record, tmdb: Record)
    ensures Merge(Merge(existing, tmdb), tmdb) == Merge(existing, tmdb)
  {
    var m := Merge(existing, tmdb);
    var m2 := Merge(m, tmdb);
    forall f | f in m2
      ensures f in m && m2[f] == m[f]
    {
      if f in FILLED {
        assert Get(m, f) == m[f];
      }
    }
  }

  // ---------------------------------------------------------------- batch updates

  /** Every update of `us` is for a row of a list of length `n`. */
  predicate InRange(us: seq<Update>, n: nat) {
    forall k :: 0 <= k < |us| ==> us[k].index < n
  }

  /** One step of the batch callback: an update with a record merges it into its row; `null` is skipped. */
  function ApplyUpdate(list: seq<Record>, u: Update): (r: seq<Record>)
    requires u.index < |list|
    ensures |r| == |list|
    ensures forall i :: 0 <= i < |list| && i != u.index ==> r[i] == list[i]
    ensures r[u.index] == if u.tmdb.Rec? then Merge(list[u.index], u.tmdb.fields) else list[u.index]
  {
    if u.tmdb.Rec? then list[u.index := Merge(list[u.index], u.tmdb.fields)] else list
  }

  /** The batch callback over a whole list of updates, in order. */
  function ApplyUpdates(list: seq<Record>, us: seq<Update>): (r: seq<Record>)
    requires InRange(us, |list|)
    ensures |r| == |list|
  {
    if us == [] then list
    else
      var n := |us| - 1;
      InRangePrefix(us, |list|, n);
      ApplyUpdate(ApplyUpdates(list, us[..n]), us[n])
  }

  lemma InRangePrefix(us: seq<Update>, len: nat, n: nat)
    requires InRange(us, len) && n <= |us|
    ensures InRange(us[..n], len)
  {
    assert forall k :: 0 <= k < n ==> us[..n][k] == us[k];
  }

  /** A record update is for row `i`. */
  predicate Touches(u: Update, i: nat) {
    u.index == i && u.tmdb.Rec?
  }

  /** Rows that no update with a record is for keep their value. */
  lemma {:induction false} ApplyUpdatesUntouched(list: seq<Record>, us: seq<Update>, i: nat)
    requires InRange(us, |list|) && i < |list|
    requires forall k :: 0 <= k < |us| ==> !Touches(us[k], i)
    ensures ApplyUpdates(list, us)[i] == list[i]
  {
    if us != [] {
      var n := |us| - 1;
      InRangePrefix(us, |list|, n);
      assert forall k :: 0 <= k < n ==> us[..n][k] == us[k];
      ApplyUpdatesUntouched(list, us[..n], i);
      assert !Touches(us[n], i);
    }
  }

  /** Applying two lists of updates one after the other is applying their concatenation. */
  lemma {:induction false} ApplyUpdatesAppend(list: seq<Record>, a: seq<Update>, b: seq<Update>)
    requires InRange(a, |list|) && InRange(b, |list|)
    ensures InRange(a + b, |list|)
    ensures ApplyUpdates(ApplyUpdates(list, a), b) == ApplyUpdates(list, a + b)
  {
    assert InRange(a + b, |list|) by {
      forall k | 0 <= k < |a + b| ensures (a + b)[k].index < |list| {
        if k < |a| { assert (a + b)[k] == a[k]; } else { assert (a + b)[k] == b[k - |a|]; }
      }
    }
    if b == [] {
      assert a + b == a;
    } else {
      var n := |b| - 1;
      InRangePrefix(b, |list|, n);
      ApplyUpdatesAppend(list, a, b[..n]);
      var ab := a + b;
      assert ab[..|ab| - 1] == a + b[..n];
      assert ab[|ab| - 1] == b[n];
      assert ApplyUpdates(list, ab) == ApplyUpdate(ApplyUpdates(list, a + b[..n]), b[n]);
    }
  }

  /** No two updates of `us` are for the same row. */
  predicate DistinctIndices(us: seq<Update>) {
    forall k, l :: 0 <= k < l < |us| ==> us[k].index != us[l].index
  }

  /** When every row gets at most one update, each record update is merged into the row as it was. */
  lemma {:induction false} ApplyDistinct(list: seq<Record>, us: seq<Update>, k: nat)
    requires InRange(us, |list|) && DistinctIndices(us) && k < |us| && us[k].tmdb.Rec?
    ensures ApplyUpdates(list, us)[us[k].index] == Merge(list[us[k].index], us[k].tmdb.fields)
  {
    var n := |us| - 1;
    assert InRange(us[..n], |list|) by {
      forall j | 0 <= j < n ensures us[..n][j].index < |list| {
        assert us[..n][j] == us[j];
      }
    }
    if k < n {
      assert us[..n][k] == us[k];
      assert DistinctIndices(us[..n]) by {
        forall a, b | 0 <= a < b < n ensures us[..n][a].index != us[..n][b].index {
          assert us[..n][a] == us[a] && us[..n][b] == us[b];
        }
      }
      ApplyDistinct(list, us[..n], k);
    } else {
      forall j | 0 <= j < n ensures !Touches(us[..n][j], us[k].index) {
        assert us[..n][j] == us[j];
      }
      ApplyUpdatesUntouched(list, us[..n], us[k].index);
    }
  }

  // ---------------------------------------------------------------- tagging and correcting rows

  /** `rows.map(m => ({ ...m, mediaType }))`. */
  function Tagged(rows: seq<Record>, kind: MediaType): (r: seq<Record>)
    ensures |r| == |rows|
    ensures forall i :: 0 <= i < |r| ==> r[i].Keys == rows[i].Keys + {"mediaType"}
    ensures forall i :: 0 <= i < |r| ==> r[i]["mediaType"] == Str(TypeName(kind))
    ensures forall i, f :: 0 <= i < |r| && f in rows[i] && f != "mediaType" ==> r[i][f] == rows[i][f]
  {
    seq(|rows|, i requires 0 <= i < |rows| => rows[i]["mediaType" := Str(TypeName(kind))])
  }

  /** The rows `overrideItem` corrects: same title and same year, compared strictly. */
  predicate Matches(item: Record, title: Value, year: Value) {
    Get(item, "title") == title && Get(item, "year") == year
  }

  /** `overrideItem` on one list: the fields of `newData` are spread over every matching row. */
  function Overridden(list: seq<Record>, title: Value, year: Value, newData: Record): (r: seq<Record>)
    ensures |r| == |list|
    ensures forall i :: 0 <= i < |list| && !Matches(list[i], title, year) ==> r[i] == list[i]
    ensures forall i :: 0 <= i < |list| && Matches(list[i], title, year) ==>
      && r[i].Keys == list[i].Keys + newData.Keys
      && (forall f :: f in newData ==> r[i][f] == newData[f])
      && (forall f :: f in list[i] && f !in newData ==> r[i][f] == list[i][f])
  {
    seq(|list|, i requires 0 <= i < |list| =>
      if Matches(list[i], title, year) then list[i] + newData else list[i])
  }

  // ---------------------------------------------------------------- the lookups of a list

  /** What the lookups of a list of rows answer, each one seeing the store the previous ones left. */
  datatype Lookups = Lookups(results: seq<Payload>, storage: Storage, asked: seq<Request>)

  function ResolveAll(configured: bool, st: Storage, items: seq<Record>, kind: MediaType, now: int,
                      search: Request -> Response<Hit>): (r: Lookups)
    ensures |r.results| == |items|
  {
    if items == [] then Lookups([], st, [])
    else
      var n := |items| - 1;
      var prev := ResolveAll(configured, st, items[..n], kind, now, search);
      var o := Resolve(configured, prev.storage, kind, TextOr(items[n], "title"), TextOr(items[n], "year"), now, search);
      Lookups(prev.results + [o.result], o.storage, prev.asked + o.asked)
  }

  /** The lookups of one more row extend those of the rows before it by that row's lookup. */
  lemma ResolveAllLast(configured: bool, st: Storage, items: seq<Record>, kind: MediaType, now: int,
                       search: Request -> Response<Hit>, m: nat)
    requires m < |items|
    ensures var prev := ResolveAll(configured, st, items[..m], kind, now, search);
      var o := Resolve(configured, prev.storage, kind, TextOr(items[m], "title"), TextOr(items[m], "year"), now, search);
      ResolveAll(configured, st, items[..m + 1], kind, now, search) == Lookups(prev.results + [o.result], o.storage, prev.asked + o.asked)
  {
    assert items[..m + 1][..m] == items[..m];
  }

  /** The lookups of a prefix of the rows answer what the lookups of all rows answer for it. */
  lemma {:induction false} ResolveAllPrefix(configured: bool, st: Storage, items: seq<Record>, kind: MediaType, now: int,
                                            search: Request -> Response<Hit>, m: nat)
    requires m <= |items|
    ensures ResolveAll(configured, st, items[..m], kind, now, search).results
      == ResolveAll(configured, st, items, kind, now, search).results[..m]
    decreases |items|
  {
    if m < |items| {
      var n := |items| - 1;
      assert items[..n][..m] == items[..m];
      ResolveAllPrefix(configured, st, items[..n], kind, now, search, m);
    } else {
      assert items[..m] == items;
    }
  }

  /** On a store with the usual layout the lookups keep that layout and never answer a string. */
  lemma {:induction false} ResolveAllKeepsPartition(configured: bool, st: Storage, items: seq<Record>, kind: MediaType,
                                                    now: int, search: Request -> Response<Hit>)
    requires Partitioned(st)
    ensures var all := ResolveAll(configured, st, items, kind, now, search);
      Partitioned(all.storage) && forall i :: 0 <= i < |all.results| ==> !all.results[i].Text?
  {
    if items != [] {
      var n := |items| - 1;
      ResolveAllKeepsPartition(configured, st, items[..n], kind, now, search);
      var prev := ResolveAll(configured, st, items[..n], kind, now, search);
      var title, year := TextOr(items[n], "title"), TextOr(items[n], "year");
      ResolveKeepsPartition(configured, prev.storage, kind, title, year, now, search);
      ResolveNeverText(configured, prev.storage, kind, title, year, now, search);
    }
  }

  /** The updates of the batches emitted so far, in order. */
  function Concat(batches: seq<seq<Update>>): seq<Update> {
    if batches == [] then [] else Concat(batches[..|batches| - 1]) + batches[|batches| - 1]
  }

  /** Batch `k` of the answers: the updates for rows `8k` up to `min(8k + 8, n)`. */
  function BatchOf(results: seq<Payload>, k: nat): (batch: seq<Update>)
    requires BATCH_SIZE * k < |results|
    ensures 1 <= |batch| <= BATCH_SIZE
  {
    Updates(results, BATCH_SIZE * k, Min(BATCH_SIZE * k + BATCH_SIZE, |results|))
  }

  /** `batches` are the batches of `results`, all of them, in order. */
  predicate Batched(batches: seq<seq<Update>>, results: seq<Payload>) {
    && |batches| == (|results| + BATCH_SIZE - 1) / BATCH_SIZE
    && forall k :: 0 <= k < |batches| ==> BATCH_SIZE * k < |results| && batches[k] == BatchOf(results, k)
  }

  /** Row `i` is in one of the batches. */
  predicate InSomeBatch(batches: seq<seq<Update>>, i: nat) {
    exists k, j :: 0 <= k < |batches| && 0 <= j < |batches[k]| && batches[k][j].index == i
  }

  /**
   * The batches partition the rows: every row index below `n` is in a batch, no two places of
   * the batches hold the same row, each batch's rows come after the previous batch's, and each
   * update carries the answer for its row. There are `ceil(n / 8)` batches, all of eight rows
   * except possibly the last.
   */
  lemma BatchesPartition(batches: seq<seq<Update>>, results: seq<Payload>)
    requires Batched(batches, results)
    ensures forall i: nat :: i < |results| ==> InSomeBatch(batches, i)
    ensures forall k, j, k', j' ::
      (0 <= k < |batches| && 0 <= j < |batches[k]| && 0 <= k' < |batches| && 0 <= j' < |batches[k']| &&
       batches[k][j].index == batches[k'][j'].index) ==> k == k' && j == j'
    ensures forall k, j, k', j' ::
      (0 <= k < k' < |batches| && 0 <= j < |batches[k]| && 0 <= j' < |batches[k']|) ==>
       batches[k][j].index < batches[k'][j'].index
    ensures forall k, j :: 0 <= k < |batches| && 0 <= j < |batches[k]| ==>
      batches[k][j].index == BATCH_SIZE * k + j && batches[k][j].index < |results| &&
      batches[k][j].tmdb == results[batches[k][j].index]
    ensures forall k :: 0 <= k < |batches| - 1 ==> |batches[k]| == BATCH_SIZE
  {
    forall i: nat | i < |results|
      ensures InSomeBatch(batches, i)
    {
      var k, j := i / BATCH_SIZE, i % BATCH_SIZE;
      assert k < |batches|;
      assert batches[k][j].index == i;
    }
  }

  // ---------------------------------------------------------------- the hook's state

  /** The state the hook keeps: the two lists, the loading and error flags, and whether it is mounted. */
  class MediaData {
    var movies: seq<Record>
    var series: seq<Record>
    var loading: bool
    var error: Option<string>
    var active: bool

    constructor()
      ensures movies == [] && series == [] && loading && error == None && active
    {
      movies, series, loading, error, active := [], [], true, None, true;
    }

    /** The list a media kind lives in. */
    function List(kind: MediaType): seq<Record>
      reads this
    {
      if kind == Movie then movies else series
    }

    /** The sheets have been read: both lists are set, tagged with their media kind, unless unmounted. */
    method Load(rawMovies: seq<Record>, rawSeries: seq<Record>)
      modifies this
      ensures old(active) ==> movies == Tagged(rawMovies, Movie) && series == Tagged(rawSeries, Tv) && !loading
      ensures !old(active) ==> movies == old(movies) && series == old(series) && loading == old(loading)
      ensures active == old(active) && error == old(error)
    {
      if !active {
        return;
      }
      movies := Tagged(rawMovies, Movie);
      series := Tagged(rawSeries, Tv);
      loading := false;
    }

    /** Reading the sheets failed: the message is kept and loading stops, unless unmounted. */
    method LoadFailed(message: string)
      modifies this
      ensures old(active) ==> error == Some(message) && !loading
      ensures !old(active) ==> error == old(error) && loading == old(loading)
      ensures movies == old(movies) && series == old(series) && active == old(active)
    {
      if active {
        error := Some(message);
        loading := false;
      }
    }

    /** The batch callback: merge the answered records into a copy of the list; nothing once unmounted. */
    method ApplyBatch(kind: MediaType, updates: seq<Update>)
      requires InRange(updates, |List(kind)|)
      modifies this
      ensures old(active) ==> List(kind) == ApplyUpdates(old(List(kind)), updates)
      ensures !old(active) ==> List(kind) == old(List(kind))
      ensures kind == Movie ==> series == old(series)
      ensures kind == Tv ==> movies == old(movies)
      ensures active == old(active) && loading == old(loading) && error == old(error)
    {
      if !active {
        return;
      }
      var next := List(kind);
      var k := 0;
      while k < |updates|
        invariant 0 <= k <= |updates|
        invariant InRange(updates[..k], |List(kind)|)
        invariant next == ApplyUpdates(List(kind), updates[..k])
        invariant unchanged(this)
      {
        assert updates[..k + 1][..k] == updates[..k];
        InRangePrefix(updates, |List(kind)|, k + 1);
        var u := updates[k];
        if u.tmdb.Rec? {
          next := next[u.index := Merge(next[u.index], u.tmdb.fields)];
        }
        k := k + 1;
      }
      assert updates[..|updates|] == updates;
      if kind == Movie {
        movies := next;
      } else {
        series := next;
      }
    }

    /** `overrideItem`: the movie list for a movie, the series list otherwise. */
    method OverrideItem(kind: MediaType, title: Value, year: Value, newData: Record)
      modifies this
      ensures List(kind) == Overridden(old(List(kind)), title, year, newData)
      ensures kind == Movie ==> series == old(series)
      ensures kind == Tv ==> movies == old(movies)
      ensures active == old(active) && loading == old(loading) && error == old(error)
    {
      if kind == Movie {
        movies := Overridden(movies, title, year, newData);
      } else {
        series := Overridden(series, title, year, newData);
      }
    }

    /** Unmounting: later callbacks are ignored. */
    method Teardown()
      modifies this
      ensures !active
      ensures movies == old(movies) && series == old(series) && loading == old(loading) && error == old(error)
    {
      active := false;
    }
  }

  /** The store has seen the lookups of the first `m` rows and nothing else since `st0` and `log0`. */
  ghost predicate LookedUp(store: LocalStore, st0: Storage, log0: seq<Request>, items: seq<Record>, m: nat,
                           kind: MediaType, now: int, search: Request -> Response<Hit>)
    requires m <= |items|
    reads store
  {
    var done := ResolveAll(store.configured, st0, items[..m], kind, now, search);
    store.storage == done.storage && store.requests == log0 + done.asked
  }

  lemma AppendAssoc<T>(a: seq<T>, b: seq<T>, c: seq<T>)
    ensures a + b + c == a + (b + c)
  {
  }

  /** The updates for rows `from` up to `to`, each carrying that row's answer. */
  function Updates(results: seq<Payload>, from: nat, to: nat): (us: seq<Update>)
    requires from <= to <= |results|
    ensures |us| == to - from
    ensures forall l :: 0 <= l < |us| ==> us[l] == Update(from + l, results[from + l])
  {
    seq(to - from, l requires 0 <= l < to - from => Update(from + l, results[from + l]))
  }

  /** One more row adds its update at the end. */
  lemma UpdatesNext(results: seq<Payload>, from: nat, to: nat)
    requires from <= to < |results|
    ensures Updates(results, from, to + 1) == Updates(results, from, to) + [Update(to, results[to])]
  {
  }

  /** The lookup of row `j` answers what the lookups of all rows answer for it, and extends the store's history. */
  lemma LookupStep(configured: bool, st0: Storage, items: seq<Record>, kind: MediaType, now: int,
                   search: Request -> Response<Hit>, j: nat)
    requires j < |items|
    ensures var prev := ResolveAll(configured, st0, items[..j], kind, now, search);
      var o := Resolve(configured, prev.storage, kind, TextOr(items[j], "title"), TextOr(items[j], "year"), now, search);
      var next := ResolveAll(configured, st0, items[..j + 1], kind, now, search);
      && ResolveAll(configured, st0, items, kind, now, search).results[j] == o.result
      && next.storage == o.storage && next.asked == prev.asked + o.asked
  {
    var next := ResolveAll(configured, st0, items[..j + 1], kind, now, search);
    ResolveAllLast(configured, st0, items, kind, now, search, j);
    ResolveAllPrefix(configured, st0, items, kind, now, search, j + 1);
    assert next.results[j] == ResolveAll(configured, st0, items, kind, now, search).results[j];
  }

  /** `searchTMDB` for row `j`: it answers what the lookups of all rows answer for that row. */
  method LookupRow(items: seq<Record>, j: nat, kind: MediaType, store: LocalStore, now: int,
                   search: Request -> Response<Hit>, ghost st0: Storage, ghost log0: seq<Request>)
    returns (answer: Payload)
    requires j < |items|
    requires LookedUp(store, st0, log0, items, j, kind, now, search)
    modifies store
    ensures LookedUp(store, st0, log0, items, j + 1, kind, now, search)
    ensures answer == ResolveAll(store.configured, st0, items, kind, now, search).results[j]
  {
    var item := items[j];
    ghost var prev := ResolveAll(store.configured, st0, items[..j], kind, now, search);
    ghost var o := Resolve(store.configured, prev.storage, kind, TextOr(item, "title"), TextOr(item, "year"), now, search);
    LookupStep(store.configured, st0, items, kind, now, search, j);
    answer := store.SearchTmdb(TextOr(item, "title"), TextOr(item, "year"), kind, now, search);
    assert store.requests == log0 + prev.asked + o.asked;
    AppendAssoc(log0, prev.asked, o.asked);
  }

  /** The lookups of one batch, rows `start` up to `end`, with their updates in row order. */
  method LookupBatch(items: seq<Record>, start: nat, end: nat, kind: MediaType, store: LocalStore, now: int,
                     search: Request -> Response<Hit>, ghost st0: Storage, ghost log0: seq<Request>)
    returns (batch: seq<Update>)
    requires start <= end <= |items|
    requires LookedUp(store, st0, log0, items, start, kind, now, search)
    modifies store
    ensures LookedUp(store, st0, log0, items, end, kind, now, search)
    ensures batch == Updates(ResolveAll(store.configured, st0, items, kind, now, search).results, start, end)
  {
    ghost var all := ResolveAll(store.configured, st0, items, kind, now, search);
    batch := [];
    var j := start;
    while j < end
      invariant start <= j <= end
      invariant batch == Updates(all.results, start, j)
      invariant LookedUp(store, st0, log0, items, j, kind, now, search)
    {
      var answer := LookupRow(items, j, kind, store, now, search, st0, log0);
      UpdatesNext(all.results, start, j);
      batch := batch + [Update(j, answer)];
      j := j + 1;
    }
  }

  /** The other list. */
  function Other(kind: MediaType): MediaType {
    if kind == Movie then Tv else Movie
  }

  /** `emitted` are the first batches of `results`, in order. */
  predicate EmittedSoFar(emitted: seq<seq<Update>>, results: seq<Payload>) {
    && (|emitted| == 0 || BATCH_SIZE * (|emitted| - 1) < |results|)
    && forall k :: 0 <= k < |emitted| ==> BATCH_SIZE * k < |results| && emitted[k] == BatchOf(results, k)
  }

  /**
   * The hook's state after the callback received `updates`: the list of `kind` has them merged
   * in if the hook was mounted, the other list is as it was and the hook is still (un)mounted.
   */
  ghost predicate Applied(data: MediaData, kind: MediaType, list0: seq<Record>, other0: seq<Record>, active0: bool,
                          updates: seq<Update>)
    reads data
  {
    && InRange(updates, |list0|)
    && (active0 ==> data.List(kind) == ApplyUpdates(list0, updates))
    && (!active0 ==> data.List(kind) == list0)
    && data.List(Other(kind)) == other0
    && data.active == active0
  }

  /**
   * The state of `enrichBatch` before the batch starting at row `i`: the rows before `i` have been
   * looked up, their batches emitted and handed to the callback.
   */
  ghost predicate Progress(items: seq<Record>, kind: MediaType, store: LocalStore, data: MediaData, now: int,
                           search: Request -> Response<Hit>, st0: Storage, log0: seq<Request>, list0: seq<Record>,
                           other0: seq<Record>, active0: bool, emitted: seq<seq<Update>>, i: nat)
    reads store, data
  {
    && i == BATCH_SIZE * |emitted|
    && LookedUp(store, st0, log0, items, Min(i, |items|), kind, now, search)
    && EmittedSoFar(emitted, ResolveAll(store.configured, st0, items, kind, now, search).results)
    && Applied(data, kind, list0, other0, active0, Concat(emitted))
  }

  /** One round of `enrichBatch`: the lookups of the next batch, then the callback. */
  method EnrichRound(items: seq<Record>, start: nat, kind: MediaType, store: LocalStore, data: MediaData, now: int,
                     search: Request -> Response<Hit>, ghost st0: Storage, ghost log0: seq<Request>,
                     ghost emitted: seq<seq<Update>>, ghost list0: seq<Record>, ghost other0: seq<Record>,
                     ghost active0: bool)
    returns (batch: seq<Update>)
    requires start < |items| && |list0| == |items|
    requires Progress(items, kind, store, data, now, search, st0, log0, list0, other0, active0, emitted, start)
    modifies store, data
    ensures Progress(items, kind, store, data, now, search, st0, log0, list0, other0, active0, emitted + [batch],
                     start + BATCH_SIZE)
  {
    ghost var all := ResolveAll(store.configured, st0, items, kind, now, search);
    var end := Min(start + BATCH_SIZE, |items|);
    batch := LookupBatch(items, start, end, kind, store, now, search, st0, log0);
    assert batch == BatchOf(all.results, |emitted|);
    ApplyUpdatesAppend(list0, Concat(emitted), batch);
    assert Concat(emitted + [batch]) == Concat(emitted) + batch by {
      assert (emitted + [batch])[..|emitted|] == emitted;
    }
    data.ApplyBatch(kind, batch);
    forall k | 0 <= k < |emitted| + 1
      ensures BATCH_SIZE * k < |all.results| && (emitted + [batch])[k] == BatchOf(all.results, k)
    {
      if k < |emitted| {
        assert (emitted + [batch])[k] == emitted[k];
      }
    }
    assert Min(start + BATCH_SIZE, |items|) == end;
  }

  /** `n` rows make `ceil(n / 8)` batches. */
  lemma BatchCount(batches: nat, n: nat)
    requires BATCH_SIZE * batches >= n
    requires batches == 0 || BATCH_SIZE * (batches - 1) < n
    ensures batches == (n + BATCH_SIZE - 1) / BATCH_SIZE
  {
  }

  /** Once every row is past, the batches are all there and the store and the lists are final. */
  lemma Finished(items: seq<Record>, kind: MediaType, store: LocalStore, data: MediaData, now: int,
                 search: Request -> Response<Hit>, st0: Storage, log0: seq<Request>, list0: seq<Record>,
                 other0: seq<Record>, active0: bool, emitted: seq<seq<Update>>, i: nat)
    requires i >= |items|
    requires Progress(items, kind, store, data, now, search, st0, log0, list0, other0, active0, emitted, i)
    ensures var all := ResolveAll(store.configured, st0, items, kind, now, search);
      && Batched(emitted, all.results)
      && store.storage == all.storage && store.requests == log0 + all.asked
    ensures InRange(Concat(emitted), |list0|)
    ensures active0 ==> data.List(kind) == ApplyUpdates(list0, Concat(emitted))
    ensures !active0 ==> data.List(kind) == list0
    ensures data.List(Other(kind)) == other0 && data.active == active0
  {
    BatchCount(|emitted|, |items|);
    assert items[..|items|] == items;
  }

  /**
   * `enrichBatch` with the hook's batch callback: the rows are looked up eight at a time, in
   * order; after each batch its updates, one per row with the row's index, go to the callback.
   * Returns the batches in the order they were delivered.
   */
  method EnrichBatch(items: seq<Record>, kind: MediaType, store: LocalStore, data: MediaData, now: int,
                     search: Request -> Response<Hit>)
    returns (emitted: seq<seq<Update>>)
    requires |data.List(kind)| == |items|
    modifies store, data
    ensures Batched(emitted, ResolveAll(store.configured, old(store.storage), items, kind, now, search).results)
    ensures var all := ResolveAll(store.configured, old(store.storage), items, kind, now, search);
      store.storage == all.storage && store.requests == old(store.requests) + all.asked
    ensures InRange(Concat(emitted), |items|)
    ensures old(data.active) ==> data.List(kind) == ApplyUpdates(old(data.List(kind)), Concat(emitted))
    ensures !old(data.active) ==> data.List(kind) == old(data.List(kind))
    ensures data.List(Other(kind)) == old(data.List(Other(kind)))
    ensures data.active == old(data.active)
    ensures var all := ResolveAll(store.configured, old(store.storage), items, kind, now, search);
      old(store.Valid()) ==> store.Valid() && forall i :: 0 <= i < |all.results| ==> !all.results[i].Text?
  {
    ghost var st0, log0 := store.storage, store.requests;
    ghost var list0, other0, active0 := data.List(kind), data.List(Other(kind)), data.active;
    emitted := [];
    var i := 0;
    while i < |items|
      invariant Progress(items, kind, store, data, now, search, st0, log0, list0, other0, active0, emitted, i)
      decreases |items| - i
    {
      var batch := EnrichRound(items, i, kind, store, data, now, search, st0, log0, emitted, list0, other0, active0);
      emitted := emitted + [batch];
      i := i + BATCH_SIZE;
    }
    Finished(items, kind, store, data, now, search, st0, log0, list0, other0, active0, emitted, i);
    if Partitioned(st0) {
      ResolveAllKeepsPartition(store.configured, st0, items, kind, now, search);
    }
  }
}
