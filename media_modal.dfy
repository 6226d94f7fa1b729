/**
 * The detail view of one title (src/components/MediaModal.jsx): the colour of the status text,
 * the genre tags, and the view's own state (the trailer key and the "pick a different match"
 * mode) with the handlers that change it.
 */
module MediaModal {
  import opened Wrappers
  import opened Text
  import opened Records
  import opened Seqs
  import opened Tmdb
  import opened MediaHook
  import App
  import MediaCard

  // ---------------------------------------------------------------- status colour

  /** The keys of the colour table, in the order the search visits them. */
  const STATUS_KEYS: seq<string> := ["watched", "watching", "want to watch"]

  /** The text colour of each key, at the key's index. */
  const STATUS_COLORS: seq<string> := ["text-green-400", "text-blue-400", "text-amber-400"]

  const GRAY: string := "text-gray-400"

  /** The lower-cased status; an absent status reads as the empty string. */
  function LowerStatus(status: Option<string>): string {
    Lower(status.GetOr(""))
  }

  /**
   * The colour of a status: that of the first key, in table order, the lower-cased status
   * contains, and gray when it contains none.
   */
  function StatusColor(status: Option<string>): (color: string)
    ensures forall k ::
      (&& 0 <= k < |STATUS_KEYS| && Contains(LowerStatus(status), STATUS_KEYS[k])
       && forall j :: 0 <= j < k ==> !Contains(LowerStatus(status), STATUS_KEYS[j]))
      ==> color == STATUS_COLORS[k]
    ensures (forall k :: 0 <= k < |STATUS_KEYS| ==> !Contains(LowerStatus(status), STATUS_KEYS[k])) <==> color == GRAY
  {
    match FirstContained(LowerStatus(status), STATUS_KEYS)
    case Some(k) => STATUS_COLORS[k]
    case None => GRAY
  }

  /** `getStatusColor`: walks the table and returns at the first key the status contains. */
  method GetStatusColor(status: Option<string>) returns (color: string)
    ensures color == StatusColor(status)
  {
    var lower := LowerStatus(status);
    var i := 0;
    while i < |STATUS_KEYS|
      invariant 0 <= i <= |STATUS_KEYS|
      invariant forall j :: 0 <= j < i ==> !Contains(lower, STATUS_KEYS[j])
    {
      if Contains(lower, STATUS_KEYS[i]) {
        return STATUS_COLORS[i];
      }
      i := i + 1;
    }
    return GRAY;
  }

  /**
   * The detail view and the grid card agree: a non-empty status whose card shows the badge of
   * a key is written in that key's colour, and a status with no badge is gray.
   */
  lemma ColourFollowsBadge(status: string)
    requires status != ""
    ensures MediaCard.StatusBadge(Some(status)).None? <==> StatusColor(Some(status)) == GRAY
    ensures forall k :: 0 <= k < |STATUS_KEYS| ==>
      (MediaCard.StatusBadge(Some(status)) == Some(MediaCard.BADGES[k]) <==> StatusColor(Some(status)) == STATUS_COLORS[k])
  {
    var lower := Lower(status);
    assert LowerStatus(Some(status)) == lower;
    assert MediaCard.BADGE_KEYS == STATUS_KEYS;
    match FirstContained(lower, STATUS_KEYS)
    case Some(k) =>
      MediaCard.StatusBadgeFirstMatch(status, k);
    case None =>
  }

  // ---------------------------------------------------------------- genre tags

  /**
   * The genre tags: nothing for an absent or empty genre, otherwise the comma pieces, trimmed,
   * without the empty ones, in their order, each as often as it occurs among the pieces.
   */
  function GenreTags(item: Record): (tags: seq<string>)
    ensures TextOf(item, "genre").None? || TextOf(item, "genre") == Some("") ==> tags == []
    ensures forall t :: t in tags ==> t != "" && ',' !in t && Trim(t) == t
    ensures TextOf(item, "genre").Some? ==>
      var pieces := TrimmedSplit(TextOf(item, "genre").value, ',');
      && IsSubsequence(tags, pieces)
      && multiset(tags) <= multiset(pieces)
      && forall t :: t in pieces ==> multiset(tags)[t] == if t != "" then multiset(pieces)[t] else 0
  {
    match TextOf(item, "genre")
    case Some(g) =>
      var pieces := TrimmedSplit(g, ',');
      FilterIsSubsequence(pieces, t => t != "");
      FilterCounts(pieces, t => t != "");
      if g == "" then
        assert Split(g, ',') == [[]];
        assert Filter(pieces, t => t != "") == [];
        []
      else
        Filter(pieces, t => t != "")
    case None => []
  }

  /**
   * The tags of the detail view are the non-empty genre pieces the genre facet of the app
   * is built from.
   */
  lemma GenreTagsArePieces(item: Record)
    ensures GenreTags(item) == Filter(App.GenrePieces(item), t => t != "")
  {
    match TextOf(item, "genre")
    case Some(g) =>
      if g == "" {
        assert Split(g, ',') == [[]];
        assert App.GenrePieces(item) == [[]];
      }
    case None =>
  }

  /** Every tag of a listed title is offered by the genre facet of its list. */
  lemma GenreTagsInFacet(items: seq<Record>, i: nat)
    requires i < |items|
    ensures forall t :: t in GenreTags(items[i]) ==> t in App.Genres(items)
  {
    GenreTagsArePieces(items[i]);
    App.GenresFacet(items);
  }

  // ---------------------------------------------------------------- the view's state

  /** The list a title belongs to: movies for 'movie', series for anything else. */
  function KindOf(item: Record): MediaType {
    if Get(item, "mediaType") == Str("movie") then Movie else Tv
  }

  /** The numeric metadata id of a title, when it has one. */
  function TmdbIdOf(item: Record): Option<int> {
    match Get(item, "tmdbId")
    case Num(n) => Some(n)
    case _ => None
  }

  /** Whether the view asks for a trailer: the title has a non-zero id and a media type. */
  predicate WantsTrailer(item: Record) {
    Truthy(Get(item, "tmdbId")) && Truthy(Get(item, "mediaType"))
  }

  /** The trailer key a lookup answer sets: only a non-empty key does. */
  function TrailerFrom(answer: Payload, current: Option<string>): (key: Option<string>)
    ensures answer.Text? && answer.text != "" ==> key == Some(answer.text)
    ensures !(answer.Text? && answer.text != "") ==> key == current
  {
    if answer.Text? && answer.text != "" then Some(answer.text) else current
  }

  /** The detail view of `item`. */
  class Modal {
    var item: Record
    /** Whether the view shows the match picker instead of the details. */
    var picking: bool
    /** The YouTube key of the trailer, once one is found. */
    var trailerKey: Option<string>
    /** Whether the view has asked the app to close it. */
    var closed: bool

    constructor(item: Record)
      ensures this.item == item && !picking && trailerKey == None && !closed
    {
      this.item := item;
      picking := false;
      trailerKey := None;
      closed := false;
    }

    /**
     * A new item is shown. When its id or its media type differ from the old item's, the
     * trailer is cleared and the details are shown again.
     */
    method ItemChanged(next: Record)
      modifies this
      ensures item == next && closed == old(closed)
      ensures Get(next, "tmdbId") != Get(old(item), "tmdbId") || Get(next, "mediaType") != Get(old(item), "mediaType")
        ==> trailerKey == None && !picking
      ensures Get(next, "tmdbId") == Get(old(item), "tmdbId") && Get(next, "mediaType") == Get(old(item), "mediaType")
        ==> trailerKey == old(trailerKey) && picking == old(picking)
    {
      if Get(next, "tmdbId") != Get(item, "tmdbId") || Get(next, "mediaType") != Get(item, "mediaType") {
        trailerKey := None;
        picking := false;
      }
      item := next;
    }

    /**
     * The trailer lookup of the shown item, when it has a numeric id and a media type; a
     * non-empty key that comes back is shown.
     */
    method LoadTrailer(store: LocalStore, now: int, videos: Request -> Response<Video>)
      modifies this, store
      ensures item == old(item) && picking == old(picking) && closed == old(closed)
      ensures !WantsTrailer(item) || TmdbIdOf(item).None? ==>
        trailerKey == old(trailerKey) && store.storage == old(store.storage) && store.requests == old(store.requests)
      ensures WantsTrailer(item) && TmdbIdOf(item).Some? ==>
        var o := ResolveTrailer(store.configured, old(store.storage), KindOf(item), TmdbIdOf(item), now, videos);
        && trailerKey == TrailerFrom(o.result, old(trailerKey))
        && store.storage == o.storage && store.requests == old(store.requests) + o.asked
      ensures old(store.Valid()) ==> store.Valid()
    {
      if WantsTrailer(item) && TmdbIdOf(item).Some? {
        var answer := store.FetchTrailer(TmdbIdOf(item), KindOf(item), now, videos);
        trailerKey := TrailerFrom(answer, trailerKey);
      }
    }

    /** The "wrong match" button: the picker is shown. */
    method StartPicking()
      modifies this
      ensures picking && item == old(item) && trailerKey == old(trailerKey) && closed == old(closed)
    {
      picking := true;
    }

    /** The picker's back button: the details are shown again. */
    method CancelPicking()
      modifies this
      ensures !picking && item == old(item) && trailerKey == old(trailerKey) && closed == old(closed)
    {
      picking := false;
    }

    /** The Escape key: it leaves the picker when it is shown, and closes the view otherwise. */
    method Escape()
      modifies this
      ensures item == old(item) && trailerKey == old(trailerKey)
      ensures old(picking) ==> !picking && closed == old(closed)
      ensures !old(picking) ==> !picking && closed
    {
      if picking {
        picking := false;
      } else {
        closed := true;
      }
    }

    /**
     * `handleSelect`: the chosen match is saved as the override of the title, its fields are
     * spread over the rows of the title in the title's list, and the details are shown again.
     */
    method HandleSelect(newData: Record, store: LocalStore, data: MediaData)
      modifies this, store, data
      ensures store.storage ==
        old(store.storage)[OverrideKey(KindOf(item), TextOr(item, "title"), TextOr(item, "year")) := Plain(Rec(newData))]
      ensures store.requests == old(store.requests)
      ensures data.List(KindOf(item)) ==
        Overridden(old(data.List(KindOf(item))), Get(item, "title"), Get(item, "year"), newData)
      ensures data.List(Other(KindOf(item))) == old(data.List(Other(KindOf(item))))
      ensures data.active == old(data.active)
      ensures !picking && item == old(item) && trailerKey == old(trailerKey) && closed == old(closed)
      ensures old(store.Valid()) ==> store.Valid()
    {
      var kind := KindOf(item);
      store.SaveOverride(kind, TextOr(item, "title"), TextOr(item, "year"), Rec(newData));
      data.OverrideItem(kind, Get(item, "title"), Get(item, "year"), newData);
      picking := false;
    }
  }

  /**
   * A saved match sticks: the next lookup of the same title and year answers the chosen record
   * without asking the remote service and without touching the store, whatever was cached.
   */
  lemma CorrectionSticks(configured: bool, st: Storage, item: Record, newData: Record, now: int,
                         search: Request -> Response<Hit>)
    requires configured && TextOr(item, "title") != ""
    ensures var kind := KindOf(item);
      var saved := st[OverrideKey(kind, TextOr(item, "title"), TextOr(item, "year")) := Plain(Rec(newData))];
      Resolve(configured, saved, kind, TextOr(item, "title"), TextOr(item, "year"), now, search)
        == Outcome(Rec(newData), saved, [])
  {
    var kind := KindOf(item);
    var saved := st[OverrideKey(kind, TextOr(item, "title"), TextOr(item, "year")) := Plain(Rec(newData))];
    ResolveOverrideWins(configured, saved, kind, TextOr(item, "title"), TextOr(item, "year"), now, search, Rec(newData));
  }
}
