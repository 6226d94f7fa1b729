/**
 * The two badges of a grid card (src/components/MediaCard.jsx): the "no Hebrew subtitles" badge
 * and the status badge.
 */
module MediaCard {
  import opened Wrappers
  import opened Text

  // ---------------------------------------------------------------- subtitles

  /** The spellings of "n" and "no" that `toLowerCase` turns into "n" or "no". */
  const NO_SUBS_SPELLINGS: set<string> := {"n", "N", "no", "nO", "No", "NO"}

  /** Lower-casing gives "n" or "no" exactly for the spellings of those two words. */
  lemma LowerNo(t: string)
    ensures (Lower(t) == "n" || Lower(t) == "no") <==> t in NO_SUBS_SPELLINGS
  {
    if Lower(t) == "n" {
      assert |t| == 1 && LowerChar(t[0]) == 'n';
      assert t == [t[0]];
    } else if Lower(t) == "no" {
      assert |t| == 2 && LowerChar(t[0]) == 'n' && LowerChar(t[1]) == 'o';
      assert t == [t[0], t[1]];
    }
    if t in NO_SUBS_SPELLINGS {
      assert Lower(t)[0] == 'n';
      assert |t| == 2 ==> Lower(t)[1] == 'o';
      assert Lower(t) == "n" || Lower(t) == "no";
    }
  }

  /**
   * `noSubs`: the subtitles field, trimmed and lower-cased, reads "n" or "no". An absent field
   * shows no badge.
   */
  function NoSubs(subs: Option<string>): (r: bool)
    ensures r <==> subs.Some? && Trim(subs.value) in NO_SUBS_SPELLINGS
    ensures subs.Some? && Trim(subs.value) == "" ==> !r
  {
    match subs
    case None => false
    case Some(s) =>
      var v := Lower(Trim(s));
      LowerNo(Trim(s));
      v == "n" || v == "no"
  }

  // ---------------------------------------------------------------- status badge

  /** A status badge: its background class and its text. */
  datatype Badge = Badge(bg: string, caption: string)

  /** The keys of the badge table, in the order the search visits them. */
  const BADGE_KEYS: seq<string> := ["watched", "watching", "want to watch"]

  /** The badge of each key, at the key's index. */
  const BADGES: seq<Badge> := [Badge("bg-green-500", "Watched"), Badge("bg-blue-500", "Watching"), Badge("bg-amber-500", "Want")]

  /** No key is contained in the empty string. */
  lemma NoKeyInEmpty()
    ensures forall k :: 0 <= k < |BADGE_KEYS| ==> !Contains("", BADGE_KEYS[k])
  {
    forall k, i: nat | 0 <= k < |BADGE_KEYS|
      ensures !OccursAt("", BADGE_KEYS[k], i)
    {
    }
  }

  /**
   * `StatusBadge`: nothing for an absent or empty status; otherwise the badge of the first key
   * the lower-cased status contains, or nothing when it contains none.
   */
  function StatusBadge(status: Option<string>): (badge: Option<Badge>)
    ensures status.None? || status.value == "" ==> badge == None
    ensures badge.None? <==>
      status.None? || forall k :: 0 <= k < |BADGE_KEYS| ==> !Contains(Lower(status.value), BADGE_KEYS[k])
    ensures badge.Some? ==> badge.value in BADGES
  {
    match status
    case None => None
    case Some(s) =>
      if s == "" then
        assert Lower(s) == "";
        NoKeyInEmpty();
        None
      else
        match FirstContained(Lower(s), BADGE_KEYS)
        case Some(k) => Some(BADGES[k])
        case None => None
  }

  /** The badge shown is the one of the first key, in table order, that the status contains. */
  lemma StatusBadgeFirstMatch(status: string, k: nat)
    requires k < |BADGE_KEYS| && Contains(Lower(status), BADGE_KEYS[k])
    requires forall j :: 0 <= j < k ==> !Contains(Lower(status), BADGE_KEYS[j])
    ensures StatusBadge(Some(status)) == Some(BADGES[k])
  {
    var r := FirstContained(Lower(status), BADGE_KEYS);
    assert r.Some?;
    assert r.value == k;
  }
}
