/**
 * The metadata layer (src/utils/tmdb.js): store keys in three namespaces, a browser store with
 * time-limited cache entries and non-expiring override entries, the lookup order
 * override, then cache, then remote service, and the shaping of what the remote service returns.
 *
 * The browser store is a map from keys to typed entries; a JSON text that would not parse back
 * into the shape a reader expects reads as absent. The clock is the parameter `now` (milliseconds)
 * and the remote service is a pair of functions from requests to responses.
 */
module Tmdb {
  import opened Wrappers
  import opened Text
  import opened Records

  /** Seven days in milliseconds: how long a cache entry stays fresh. */
  const TTL: int := 7 * 24 * 60 * 60 * 1000
  const IMAGE_BASE := "https://image.tmdb.org/t/p/w500"
  const BACKDROP_BASE := "https://image.tmdb.org/t/p/original"

  // ---------------------------------------------------------------- keys

  /** A title as it appears in a key: lower-cased, every run of white space one underscore. */
  function TitleKey(title: string): (k: string)
    ensures NoSpace(k)
  {
    CollapseSpaces(Lower(title))
  }

  predicate OverrideSpace(k: string) {
    "tmdb:override:" <= k
  }

  predicate TrailerSpace(k: string) {
    "tmdb:trailer:" <= k
  }

  /** `cacheKey`: never in the override or the trailer namespace. */
  function CacheKey(kind: MediaType, title: string, year: string): (key: string)
    ensures !OverrideSpace(key) && !TrailerSpace(key)
  {
    var key := "tmdb:" + TypeName(kind) + ":" + TitleKey(title) + ":" + year;
    assert key[5] == TypeName(kind)[0];
    assert kind == Tv ==> key[6] == 'v';
    key
  }

  /** `overrideKey`. */
  function OverrideKey(kind: MediaType, title: string, year: string): (key: string)
    ensures OverrideSpace(key) && !TrailerSpace(key)
  {
    var key := "tmdb:override:" + TypeName(kind) + ":" + TitleKey(title) + ":" + year;
    assert key[..14] == "tmdb:override:";
    assert key[5] == 'o';
    key
  }

  /** The key of the cached trailer of a metadata id. */
  function TrailerKey(kind: MediaType, id: int): (key: string)
    ensures TrailerSpace(key) && !OverrideSpace(key)
  {
    var key := "tmdb:trailer:" + TypeName(kind) + ":" + IntToString(id);
    assert key[..13] == "tmdb:trailer:";
    assert key[5] == 't';
    key
  }

  /** Keys of the three namespaces never coincide, whatever the titles, years and ids. */
  lemma KeysDisjoint(k1: MediaType, t1: string, y1: string, k2: MediaType, t2: string, y2: string, id: int)
    ensures CacheKey(k1, t1, y1) != OverrideKey(k2, t2, y2)
    ensures CacheKey(k1, t1, y1) != TrailerKey(k2, id)
    ensures OverrideKey(k1, t1, y1) != TrailerKey(k2, id)
  {
  }

  /** Titles that differ only in letter case give the same keys. */
  lemma KeysIgnoreCase(kind: MediaType, a: string, b: string, year: string)
    requires Lower(a) == Lower(b)
    ensures CacheKey(kind, a, year) == CacheKey(kind, b, year)
    ensures OverrideKey(kind, a, year) == OverrideKey(kind, b, year)
  {
  }

  /** Titles that differ only in the length of a run of white space give the same keys. */
  lemma KeysIgnoreRunLength(kind: MediaType, a: string, w: char, w': char, b: string, year: string)
    requires IsSpace(w) && IsSpace(w')
    ensures CacheKey(kind, a + [w] + b, year) == CacheKey(kind, a + [w, w'] + b, year)
    ensures OverrideKey(kind, a + [w] + b, year) == OverrideKey(kind, a + [w, w'] + b, year)
  {
    LowerAppend(a + [w], b);
    LowerAppend(a, [w]);
    LowerAppend(a + [w, w'], b);
    LowerAppend(a, [w, w']);
    assert Lower([w]) == [w];
    assert Lower([w, w']) == [w, w'];
    assert Lower(a) + [w, w'] + Lower(b) == Lower(a) + [w] + ([w'] + Lower(b));
    CollapseLongerRun(Lower(a), w, w', Lower(b));
  }

  // ---------------------------------------------------------------- the browser store

  /** What a store entry holds once parsed: `null`, a record or a string. */
  datatype Payload = Nothing | Rec(fields: Record) | Text(text: string)

  /** A cache entry `{ts, data}` written at time `ts`, or an override entry holding the data itself. */
  datatype Entry = Timed(ts: int, data: Payload) | Plain(data: Payload)

  type Storage = map<string, Entry>

  /**
   * The layout every operation of this module keeps: override entries exactly under override
   * keys, strings only under trailer keys, records never under trailer keys.
   */
  predicate Partitioned(st: Storage) {
    forall k :: k in st ==>
      && (st[k].Plain? <==> OverrideSpace(k))
      && (st[k].data.Text? ==> TrailerSpace(k))
      && (st[k].data.Rec? ==> !TrailerSpace(k))
  }

  /** A cache entry holding `data` under `key` fits the layout of `Partitioned`. */
  predicate CacheFits(key: string, data: Payload) {
    && !OverrideSpace(key)
    && (data.Text? ==> TrailerSpace(key))
    && (data.Rec? ==> !TrailerSpace(key))
  }

  /** A read of the store together with the store it leaves behind. */
  datatype Read = Read(data: Option<Payload>, storage: Storage)

  /**
   * `fromCache`: the data of a cache entry written at most `TTL` ago; an older entry is removed
   * and reads as absent, as does a missing key or an entry of the override shape.
   */
  function CacheRead(st: Storage, key: string, now: int): (r: Read)
    ensures r.data.Some? <==> key in st && st[key].Timed? && now - st[key].ts <= TTL
    ensures r.data.Some? ==> r.data.value == st[key].data
    ensures r.storage == st || (key in st && st[key].Timed? && now - st[key].ts > TTL && r.storage == st - {key})
    ensures key !in r.storage ==> r.data.None?
  {
    if key !in st then Read(None, st)
    else match st[key]
      case Plain(_) => Read(None, st)
      case Timed(ts, data) =>
        if now - ts > TTL then Read(None, st - {key}) else Read(Some(data), st)
  }

  /** `toCache`: a fresh cache entry stamped with the time of writing. */
  function CacheWrite(st: Storage, key: string, data: Payload, now: int): (st': Storage)
    ensures st'.Keys == st.Keys + {key}
    ensures forall k :: k in st && k != key ==> st'[k] == st[k]
  {
    st[key := Timed(now, data)]
  }

  /** `getOverride`: the data stored under an override key, a stored `null` included. */
  function OverrideRead(st: Storage, key: string): (r: Option<Payload>)
    ensures r.Some? <==> key in st && st[key].Plain?
    ensures r.Some? ==> r.value == st[key].data
  {
    if key in st && st[key].Plain? then Some(st[key].data) else None
  }

  /** A value written to the cache is read back unchanged, `null` included, for `TTL` milliseconds. */
  lemma CacheRoundTrip(st: Storage, key: string, data: Payload, written: int, now: int)
    requires now - written <= TTL
    ensures CacheRead(CacheWrite(st, key, data, written), key, now) == Read(Some(data), CacheWrite(st, key, data, written))
  {
  }

  /** An expired entry reads as absent and is removed, so every later read is absent too. */
  lemma CacheExpiry(st: Storage, key: string, now: int, later: int)
    requires key in st && st[key].Timed? && now - st[key].ts > TTL
    ensures CacheRead(st, key, now).data.None?
    ensures key !in CacheRead(st, key, now).storage
    ensures CacheRead(CacheRead(st, key, now).storage, key, later).data.None?
  {
  }

  /** Reading an override key never changes the store, and an override never expires. */
  lemma OverrideRoundTrip(st: Storage, kind: MediaType, title: string, year: string, data: Payload)
    ensures OverrideRead(st[OverrideKey(kind, title, year) := Plain(data)], OverrideKey(kind, title, year)) == Some(data)
  {
  }

  // ---------------------------------------------------------------- the remote service

  /** A search hit of the remote service; absent text fields are empty, an absent or zero vote is `None`. */
  datatype Hit = Hit(
    id: int,
    posterPath: string,
    backdropPath: string,
    overview: string,
    rating: Option<string>,  // `vote_average.toFixed(1)`
    title: string,
    name: string,
    releaseDate: string,
    firstAirDate: string)

  /** A video of the remote service. */
  datatype Video = Video(site: string, videoType: string, key: string)

  /** The remote calls: a title search (an empty year adds no year parameter) and a video listing. */
  datatype Request = SearchRequest(kind: MediaType, query: string, year: string) | VideosRequest(kind: MediaType, id: int)

  /** `Failed` stands for a response that is not ok and for any exception on the way. */
  datatype Response<T> = Failed | Ok(results: seq<T>)

  const HIT_FIELDS: set<string> := {"tmdbId", "posterUrl", "backdropUrl", "overview", "tmdbRating", "tmdbTitle", "tmdbYear"}

  /** `url` is `base` followed by `path`. */
  predicate ImageUrl(url: Value, base: string, path: string) {
    url.Str? && url.s == base + path
  }

  /** `normaliseResult`. */
  function Normalise(h: Hit): (r: Record)
    ensures r.Keys == HIT_FIELDS
    ensures forall f :: f in r ==> r[f] != Undefined
  {
    var date := if h.releaseDate != "" then h.releaseDate else h.firstAirDate;
    map[
      "tmdbId" := Num(h.id),
      "posterUrl" := if h.posterPath != "" then Str(IMAGE_BASE + h.posterPath) else Null,
      "backdropUrl" := if h.backdropPath != "" then Str(BACKDROP_BASE + h.backdropPath) else Null,
      "overview" := Str(h.overview),
      "tmdbRating" := if h.rating.Some? then Str(h.rating.value) else Null,
      "tmdbTitle" := Str(if h.title != "" then h.title else h.name),
      "tmdbYear" := Str(if |date| <= 4 then date else date[..4])
    ]
  }

  /**
   * A normalised hit has the seven fixed fields and no `undefined` value; an image URL is `null`
   * exactly when the hit has no path for it and is otherwise the path under its base; the title
   * falls back on the name; the year is the first four characters of the release date, or of
   * the first air date when there is no release date.
   */
  lemma NormaliseFields(h: Hit)
    ensures var r := Normalise(h);
      var date := if h.releaseDate != "" then h.releaseDate else h.firstAirDate;
      && r.Keys == HIT_FIELDS
      && (forall f :: f in r ==> r[f] != Undefined)
      && r["tmdbId"] == Num(h.id)
      && (if h.posterPath == "" then r["posterUrl"] == Null else ImageUrl(r["posterUrl"], IMAGE_BASE, h.posterPath))
      && (if h.backdropPath == "" then r["backdropUrl"] == Null else ImageUrl(r["backdropUrl"], BACKDROP_BASE, h.backdropPath))
      && r["overview"] == Str(h.overview)
      && r["tmdbRating"] == (if h.rating.Some? then Str(h.rating.value) else Null)
      && r["tmdbTitle"] == Str(if h.title != "" then h.title else h.name)
      && r["tmdbYear"].Str? && |r["tmdbYear"].s| <= 4 && r["tmdbYear"].s <= date
      && (|r["tmdbYear"].s| == 4 || r["tmdbYear"].s == date)
  {
  }

  /** The effect of one lookup: its result, the store it leaves and the remote calls it made. */
  datatype Outcome = Outcome(result: Payload, storage: Storage, asked: seq<Request>)

  /** `searchTMDB`: override first, then the cache, then the remote service. */
  function Resolve(configured: bool, st: Storage, kind: MediaType, title: string, year: string, now: int,
                   search: Request -> Response<Hit>): (o: Outcome)
    ensures o.asked == [] || o.asked == [SearchRequest(kind, title, year)]
  {
    if !configured || title == "" then Outcome(Nothing, st, [])
    else match OverrideRead(st, OverrideKey(kind, title, year))
      case Some(data) => Outcome(data, st, [])
      case None =>
        var key := CacheKey(kind, title, year);
        var read := CacheRead(st, key, now);
        if read.data.Some? then Outcome(read.data.value, read.storage, [])
        else
          var req := SearchRequest(kind, title, year);
          match search(req)
          case Failed => Outcome(Nothing, read.storage, [req])
          case Ok(hits) =>
            var data := if hits == [] then Nothing else Rec(Normalise(hits[0]));
            Outcome(data, CacheWrite(read.storage, key, data, now), [req])
  }

  /** Without an API key or a title the lookup answers `null`, touching neither the store nor the service. */
  lemma ResolveUnconfigured(configured: bool, st: Storage, kind: MediaType, title: string, year: string, now: int,
                            search: Request -> Response<Hit>)
    requires !configured || title == ""
    ensures Resolve(configured, st, kind, title, year, now, search) == Outcome(Nothing, st, [])
  {
  }

  /** A stored override, `null` included, is the answer whatever the cache holds; nothing else is consulted. */
  lemma ResolveOverrideWins(configured: bool, st: Storage, kind: MediaType, title: string, year: string, now: int,
                            search: Request -> Response<Hit>, data: Payload)
    requires configured && title != ""
    requires OverrideKey(kind, title, year) in st && st[OverrideKey(kind, title, year)] == Plain(data)
    ensures Resolve(configured, st, kind, title, year, now, search) == Outcome(data, st, [])
  {
  }

  /** Without an override, a fresh cache entry, `null` included, is the answer and the service is not asked. */
  lemma ResolveCacheHit(configured: bool, st: Storage, kind: MediaType, title: string, year: string, now: int,
                        search: Request -> Response<Hit>)
    requires configured && title != ""
    requires OverrideRead(st, OverrideKey(kind, title, year)).None?
    requires CacheKey(kind, title, year) in st
    requires st[CacheKey(kind, title, year)].Timed? && now - st[CacheKey(kind, title, year)].ts <= TTL
    ensures Resolve(configured, st, kind, title, year, now, search) == Outcome(st[CacheKey(kind, title, year)].data, st, [])
  {
  }

  /**
   * Without an override or a fresh cache entry the service is asked once, with the title and
   * the year. A failure answers `null` and writes nothing; an empty hit list caches and answers
   * `null`; otherwise the first hit, normalised, is cached and answered.
   */
  lemma ResolveRemote(configured: bool, st: Storage, kind: MediaType, title: string, year: string, now: int,
                      search: Request -> Response<Hit>)
    requires configured && title != ""
    requires OverrideRead(st, OverrideKey(kind, title, year)).None?
    requires CacheRead(st, CacheKey(kind, title, year), now).data.None?
    ensures var o := Resolve(configured, st, kind, title, year, now, search);
      var key := CacheKey(kind, title, year);
      var req := SearchRequest(kind, title, year);
      && o.asked == [req]
      && (forall k :: k in o.storage && k != key ==> k in st && o.storage[k] == st[k])
      && (forall k :: k in st && k != key ==> k in o.storage)
      && (search(req).Failed? ==> o.result == Nothing && forall k :: k in o.storage ==> k in st && o.storage[k] == st[k])
      && (search(req).Failed? && key in st && st[key].Timed? ==> key !in o.storage)
      && (search(req) == Ok([]) ==> o.result == Nothing && key in o.storage && o.storage[key] == Timed(now, Nothing))
      && (search(req).Ok? && search(req).results != [] ==>
            o.result == Rec(Normalise(search(req).results[0])) && key in o.storage && o.storage[key] == Timed(now, o.result))
  {
  }

  /**
   * After a lookup that reached the service and got an answer, the same lookup within `TTL`
   * answers the same without asking again (the override store being untouched).
   */
  lemma {:induction false} ResolveThenCached(configured: bool, st: Storage, kind: MediaType, title: string, year: string,
                                             now: int, later: int, search: Request -> Response<Hit>)
    requires configured && title != ""
    requires OverrideRead(st, OverrideKey(kind, title, year)).None?
    requires CacheRead(st, CacheKey(kind, title, year), now).data.None?
    requires search(SearchRequest(kind, title, year)).Ok?
    requires now <= later <= now + TTL
    ensures var first := Resolve(configured, st, kind, title, year, now, search);
      Resolve(configured, first.storage, kind, title, year, later, search) == Outcome(first.result, first.storage, [])
  {
    var key, okey := CacheKey(kind, title, year), OverrideKey(kind, title, year);
    var first := Resolve(configured, st, kind, title, year, now, search);
    KeysDisjoint(kind, title, year, kind, title, year, 0);
    assert first.storage == CacheWrite(CacheRead(st, key, now).storage, key, first.result, now);
    assert okey != key;
    assert OverrideRead(first.storage, okey).None?;
    assert first.storage[key] == Timed(now, first.result);
  }

  /** A lookup keeps the layout of the store. */
  lemma ResolveKeepsPartition(configured: bool, st: Storage, kind: MediaType, title: string, year: string, now: int,
                              search: Request -> Response<Hit>)
    requires Partitioned(st)
    ensures Partitioned(Resolve(configured, st, kind, title, year, now, search).storage)
  {
  }

  /** On a store with the usual layout a lookup answers `null` or a record, never a string. */
  lemma ResolveNeverText(configured: bool, st: Storage, kind: MediaType, title: string, year: string, now: int,
                         search: Request -> Response<Hit>)
    requires Partitioned(st)
    ensures !Resolve(configured, st, kind, title, year, now, search).result.Text?
  {
  }

  /** `searchTMDBMultiple`: at most ten normalised hits of a search without year, in the service's order. */
  function Candidates(configured: bool, kind: MediaType, title: string, search: Request -> Response<Hit>): (r: seq<Record>)
    ensures !configured || title == "" ==> r == []
    ensures var resp := search(SearchRequest(kind, title, ""));
      configured && title != "" && resp.Ok? ==>
        |r| == if |resp.results| < 10 then |resp.results| else 10
    ensures forall i :: 0 <= i < |r| ==>
      search(SearchRequest(kind, title, "")).Ok? && r[i] == Normalise(search(SearchRequest(kind, title, "")).results[i])
  {
    if !configured || title == "" then []
    else match search(SearchRequest(kind, title, ""))
      case Failed => []
      case Ok(hits) =>
        var n := if |hits| < 10 then |hits| else 10;
        seq(n, i requires 0 <= i < n => Normalise(hits[i]))
  }

  /** The videos the trailer lookup accepts. */
  predicate IsTrailer(v: Video) {
    v.site == "YouTube" && (v.videoType == "Trailer" || v.videoType == "Teaser")
  }

  /** `results.find(...)`: the index of the first accepted video, if there is one. */
  function FirstTrailer(vs: seq<Video>): (r: Option<nat>)
    ensures r.Some? ==> r.value < |vs| && IsTrailer(vs[r.value])
    ensures r.Some? ==> forall k :: 0 <= k < r.value ==> !IsTrailer(vs[k])
    ensures r.None? ==> forall k :: 0 <= k < |vs| ==> !IsTrailer(vs[k])
  {
    if vs == [] then None
    else if IsTrailer(vs[0]) then Some(0)
    else match FirstTrailer(vs[1..])
      case None => None
      case Some(k) => Some(k + 1)
  }

  /** `video?.key || null`. */
  function TrailerPayload(vs: seq<Video>): (p: Payload)
    ensures p != Nothing ==> exists k :: 0 <= k < |vs| && IsTrailer(vs[k]) && p == Text(vs[k].key) && vs[k].key != ""
    ensures p.Nothing? || p.Text?
    ensures p == Nothing <==> FirstTrailer(vs).None? || vs[FirstTrailer(vs).value].key == ""
  {
    match FirstTrailer(vs)
    case None => Nothing
    case Some(k) => if vs[k].key != "" then Text(vs[k].key) else Nothing
  }

  /** `fetchTrailer`: the cache first, then the video listing, whose answer is cached. */
  function ResolveTrailer(configured: bool, st: Storage, kind: MediaType, id: Option<int>, now: int,
                          videos: Request -> Response<Video>): (o: Outcome)
    ensures o.asked == [] || (id.Some? && o.asked == [VideosRequest(kind, id.value)])
  {
    if !configured || id.None? || id.value == 0 then Outcome(Nothing, st, [])
    else
      var key := TrailerKey(kind, id.value);
      var read := CacheRead(st, key, now);
      if read.data.Some? then Outcome(read.data.value, read.storage, [])
      else
        var req := VideosRequest(kind, id.value);
        match videos(req)
        case Failed => Outcome(Nothing, read.storage, [req])
        case Ok(vs) =>
          var data := TrailerPayload(vs);
          Outcome(data, CacheWrite(read.storage, key, data, now), [req])
  }

  /**
   * The trailer lookup answers a fresh cached value without asking; otherwise it asks for the
   * videos once, and a listing is answered and cached as the key of the first YouTube trailer or
   * teaser, or `null`; a failure answers `null` and caches nothing.
   */
  lemma ResolveTrailerSpec(configured: bool, st: Storage, kind: MediaType, id: int, now: int,
                           videos: Request -> Response<Video>)
    requires configured && id != 0
    ensures var o := ResolveTrailer(configured, st, kind, Some(id), now, videos);
      var key := TrailerKey(kind, id);
      var read := CacheRead(st, key, now);
      var req := VideosRequest(kind, id);
      && (read.data.Some? ==> o == Outcome(read.data.value, st, []))
      && (read.data.None? ==> o.asked == [req])
      && (read.data.None? && videos(req).Failed? ==>
            o.result == Nothing && forall k :: k in o.storage ==> k in st && o.storage[k] == st[k])
      && (read.data.None? && videos(req).Ok? ==>
            o.result == TrailerPayload(videos(req).results) && o.storage[key] == Timed(now, o.result))
  {
  }

  /** A trailer lookup keeps the layout of the store. */
  lemma ResolveTrailerKeepsPartition(configured: bool, st: Storage, kind: MediaType, id: Option<int>, now: int,
                                     videos: Request -> Response<Video>)
    requires Partitioned(st)
    ensures Partitioned(ResolveTrailer(configured, st, kind, id, now, videos).storage)
    ensures !ResolveTrailer(configured, st, kind, id, now, videos).result.Rec?
  {
  }

  /** Saving an override keeps the layout of the store. */
  lemma SaveOverrideKeepsPartition(st: Storage, kind: MediaType, title: string, year: string, fields: Record)
    requires Partitioned(st)
    ensures Partitioned(st[OverrideKey(kind, title, year) := Plain(Rec(fields))])
  {
  }

  // ---------------------------------------------------------------- the store object

  /** The browser store as the module sees it, with a log of the remote calls made. */
  class LocalStore {
    var storage: Storage
    /** Whether an API key is configured. */
    const configured: bool
    ghost var requests: seq<Request>

    constructor(configured: bool)
      ensures storage == map[] && requests == [] && this.configured == configured
      ensures Valid()
    {
      storage := map[];
      requests := [];
      this.configured := configured;
    }

    /** The store has the layout of `Partitioned`: every method below keeps it. */
    predicate Valid()
      reads this
    {
      Partitioned(storage)
    }

    /** `fromCache`. */
    method FromCache(key: string, now: int) returns (data: Option<Payload>)
      modifies this
      ensures Read(data, storage) == CacheRead(old(storage), key, now)
      ensures requests == old(requests)
      ensures old(Valid()) ==> Valid()
    {
      data := None;
      if key in storage {
        var entry := storage[key];
        if entry.Timed? {
          if now - entry.ts > TTL {
            storage := storage - {key};
          } else {
            data := Some(entry.data);
          }
        }
      }
    }

    /** `toCache`. */
    method ToCache(key: string, data: Payload, now: int)
      modifies this
      ensures storage == CacheWrite(old(storage), key, data, now)
      ensures requests == old(requests)
      ensures old(Valid()) && CacheFits(key, data) ==> Valid()
    {
      storage := storage[key := Timed(now, data)];
    }

    /** `saveOverride`: an override entry that never expires. */
    method SaveOverride(kind: MediaType, title: string, year: string, data: Payload)
      modifies this
      ensures storage == old(storage)[OverrideKey(kind, title, year) := Plain(data)]
      ensures requests == old(requests)
      ensures old(Valid()) && !data.Text? ==> Valid()
    {
      storage := storage[OverrideKey(kind, title, year) := Plain(data)];
    }

    /** `getOverride`. */
    method GetOverride(kind: MediaType, title: string, year: string) returns (data: Option<Payload>)
      ensures data == OverrideRead(storage, OverrideKey(kind, title, year))
    {
      var key := OverrideKey(kind, title, year);
      if key in storage && storage[key].Plain? {
        data := Some(storage[key].data);
      } else {
        data := None;
      }
    }

    /** `searchTMDB`. */
    method SearchTmdb(title: string, year: string, kind: MediaType, now: int, search: Request -> Response<Hit>)
      returns (result: Payload)
      modifies this
      ensures var o := Resolve(configured, old(storage), kind, title, year, now, search);
        result == o.result && storage == o.storage && requests == old(requests) + o.asked
      ensures old(Valid()) ==> Valid() && !result.Text?
    {
      if !configured || title == "" {
        return Nothing;
      }
      var override := GetOverride(kind, title, year);
      if override.Some? {
        return override.value;
      }
      var key := CacheKey(kind, title, year);
      var cached := FromCache(key, now);
      if cached.Some? {
        return cached.value;
      }
      var req := SearchRequest(kind, title, year);
      requests := requests + [req];
      var response := search(req);
      if response.Failed? {
        return Nothing;
      }
      if response.results == [] {
        ToCache(key, Nothing, now);
        return Nothing;
      }
      result := Rec(Normalise(response.results[0]));
      ToCache(key, result, now);
    }

    /** `searchTMDBMultiple`: the store is not touched. */
    method SearchTmdbMultiple(title: string, kind: MediaType, search: Request -> Response<Hit>)
      returns (results: seq<Record>)
      modifies this
      ensures results == Candidates(configured, kind, title, search)
      ensures storage == old(storage)
      ensures requests == old(requests) + if !configured || title == "" then [] else [SearchRequest(kind, title, "")]
    {
      if !configured || title == "" {
        return [];
      }
      var req := SearchRequest(kind, title, "");
      requests := requests + [req];
      var response := search(req);
      if response.Failed? {
        return [];
      }
      results := [];
      var i := 0;
      while i < |response.results| && i < 10
        invariant 0 <= i <= |response.results| && i <= 10
        invariant |results| == i
        invariant forall j :: 0 <= j < i ==> results[j] == Normalise(response.results[j])
      {
        results := results + [Normalise(response.results[i])];
        i := i + 1;
      }
    }

    /** `fetchTrailer`. */
    method FetchTrailer(id: Option<int>, kind: MediaType, now: int, videos: Request -> Response<Video>)
      returns (result: Payload)
      modifies this
      ensures var o := ResolveTrailer(configured, old(storage), kind, id, now, videos);
        result == o.result && storage == o.storage && requests == old(requests) + o.asked
      ensures old(Valid()) ==> Valid() && !result.Rec?
    {
      if !configured || id.None? || id.value == 0 {
        return Nothing;
      }
      var key := TrailerKey(kind, id.value);
      var cached := FromCache(key, now);
      if cached.Some? {
        return cached.value;
      }
      var req := VideosRequest(kind, id.value);
      requests := requests + [req];
      var response := videos(req);
      if response.Failed? {
        return Nothing;
      }
      result := TrailerPayload(response.results);
      ToCache(key, result, now);
    }
  }
}
