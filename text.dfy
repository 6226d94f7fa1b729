/**
 * String helpers that stand for the JavaScript string methods the application uses:
 * `toLowerCase`, `trim`, `includes`, `split`, `join`, the regular expression `\s+` and
 * number-to-string conversion. Case mapping and white space are modelled over ASCII.
 */
module Text {
  import opened Wrappers

  /** The ASCII characters that `\s` and `String.prototype.trim` treat as white space. */
  predicate IsSpace(c: char) {
    c == ' ' || c == '\t' || c == '\n' || c == '\r' || c == '\U{0B}' || c == '\U{0C}'
  }

  predicate IsDigit(c: char) {
    '0' <= c <= '9'
  }

  function LowerChar(c: char): char {
    if 'A' <= c <= 'Z' then (c as int + 32) as char else c
  }

  /** `toLowerCase` over ASCII: every letter A-Z becomes a-z, everything else is kept. */
  function Lower(s: string): (r: string)
    ensures |r| == |s|
    ensures forall i :: 0 <= i < |s| ==> r[i] == LowerChar(s[i])
  {
    seq(|s|, i requires 0 <= i < |s| => LowerChar(s[i]))
  }

  lemma LowerIdempotent(s: string)
    ensures Lower(Lower(s)) == Lower(s)
  {
  }

  lemma LowerAppend(a: string, b: string)
    ensures Lower(a + b) == Lower(a) + Lower(b)
  {
  }

  /** Every character of `s` is white space. */
  predicate AllSpace(s: string) {
    forall i :: 0 <= i < |s| ==> IsSpace(s[i])
  }

  /** `trimStart`: the longest suffix of `s` that does not start with white space. */
  function TrimStart(s: string): (r: string)
    ensures |r| <= |s| && r == s[|s| - |r|..]
    ensures s != [] && IsSpace(s[0]) ==> |r| < |s|
    ensures r == [] || !IsSpace(r[0])
    ensures AllSpace(s[..|s| - |r|])
  {
    if s != [] && IsSpace(s[0]) then
      var r := TrimStart(s[1..]);
      assert s[..|s| - |r|] == [s[0]] + s[1..][..|s| - 1 - |r|];
      r
    else s
  }

  /** `trimEnd`: the longest prefix of `s` that does not end with white space. */
  function TrimEnd(s: string): (r: string)
    ensures |r| <= |s| && r == s[..|r|]
    ensures r == [] || !IsSpace(r[|r| - 1])
    ensures AllSpace(s[|r|..])
  {
    if s != [] && IsSpace(s[|s| - 1]) then
      var r := TrimEnd(s[..|s| - 1]);
      assert s[|r|..] == s[..|s| - 1][|r|..] + [s[|s| - 1]];
      r
    else s
  }

  /** `r` is a contiguous part of `s`. */
  predicate IsSlice(r: string, s: string) {
    exists i, j :: 0 <= i <= j <= |s| && r == s[i..j]
  }

  /** `r` sits at offset `i` of `s`, with only white space before and after it. */
  predicate TrimmedAt(r: string, s: string, i: nat) {
    && i + |r| <= |s|
    && r == s[i..i + |r|]
    && AllSpace(s[..i])
    && AllSpace(s[i + |r|..])
  }

  /** `trim`: `s` without leading and trailing white space. */
  function Trim(s: string): (r: string)
    ensures |r| <= |s| && IsSlice(r, s)
    ensures exists i: nat :: TrimmedAt(r, s, i)
    ensures r == [] || (!IsSpace(r[0]) && !IsSpace(r[|r| - 1]))
  {
    var t := TrimStart(s);
    var r := TrimEnd(t);
    TrimmedParts(s, t, r);
    r
  }

  /** Cutting white space off the front and then off the back leaves a trimmed slice. */
  lemma TrimmedParts(s: string, t: string, r: string)
    requires |t| <= |s| && t == s[|s| - |t|..] && AllSpace(s[..|s| - |t|])
    requires |r| <= |t| && r == t[..|r|] && AllSpace(t[|r|..])
    ensures TrimmedAt(r, s, |s| - |t|) && IsSlice(r, s)
  {
    var i := |s| - |t|;
    assert r == s[i..i + |r|];
    assert s[i + |r|..] == t[|r|..];
  }

  /** Trimming white space around a string that neither starts nor ends with white space gives that string back. */
  lemma TrimAround(pre: string, m: string, post: string)
    requires AllSpace(pre) && AllSpace(post)
    requires m != [] && !IsSpace(m[0]) && !IsSpace(m[|m| - 1])
    ensures Trim(pre + m + post) == m
  {
    var s := pre + m + post;
    var r := Trim(s);
    var i: nat :| TrimmedAt(r, s, i);
    SlicedAt(r, s, i, pre, m, post);
  }

  /** The only trimmed slice of `pre + m + post` is `m`. */
  lemma SlicedAt(r: string, s: string, i: nat, pre: string, m: string, post: string)
    requires s == pre + m + post && TrimmedAt(r, s, i)
    requires r == [] || (!IsSpace(r[0]) && !IsSpace(r[|r| - 1]))
    requires m != [] && !IsSpace(m[0]) && !IsSpace(m[|m| - 1])
    requires AllSpace(pre) && AllSpace(post)
    ensures r == m
  {
    var j := i + |r|;
    var a, b := |pre|, |pre| + |m|;
    assert s[a] == m[0] && s[b - 1] == m[|m| - 1];
    SpaceBefore(s, i, a);
    SpaceAfter(s, j, b - 1);
    assert s[i] == r[0] && s[j - 1] == r[|r| - 1];
    SpacePrefix(pre, m + post, i);
    assert s == (pre + m) + post;
    SpaceSuffix(pre + m, post, j - 1);
    assert s[a..b] == m;
  }

  /** Position `k` of `pre + t` is white space when it falls inside the all-space `pre`. */
  lemma SpacePrefix(pre: string, t: string, k: nat)
    requires AllSpace(pre) && k < |pre + t| && !IsSpace((pre + t)[k])
    ensures k >= |pre|
  {
    forall n | 0 <= n < |pre|
      ensures IsSpace((pre + t)[n])
    {
      assert (pre + t)[n] == pre[n];
    }
  }

  /** Position `k` of `t + post` is white space when it falls inside the all-space `post`. */
  lemma SpaceSuffix(t: string, post: string, k: nat)
    requires AllSpace(post) && k < |t + post| && !IsSpace((t + post)[k])
    ensures k < |t|
  {
    forall n | |t| <= n < |t + post|
      ensures IsSpace((t + post)[n])
    {
      assert (t + post)[n] == post[n - |t|];
    }
  }

  /** A character that is not white space lies at or after the end of an all-space prefix. */
  lemma SpaceBefore(s: string, i: nat, k: nat)
    requires i <= |s| && AllSpace(s[..i])
    requires k < |s| && !IsSpace(s[k])
    ensures i <= k
  {
    forall t | 0 <= t < i
      ensures IsSpace(s[t])
    {
      assert s[..i][t] == s[t];
    }
  }

  /** A character that is not white space lies before the start of an all-space suffix. */
  lemma SpaceAfter(s: string, j: nat, k: nat)
    requires j <= |s| && AllSpace(s[j..])
    requires k < |s| && !IsSpace(s[k])
    ensures k < j
  {
    forall t | j <= t < |s|
      ensures IsSpace(s[t])
    {
      assert s[j..][t - j] == s[t];
    }
  }

  /** A string that neither starts nor ends with white space is its own trimmed form. */
  lemma TrimUntouched(s: string)
    requires s == [] || (!IsSpace(s[0]) && !IsSpace(s[|s| - 1]))
    ensures Trim(s) == s
  {
    assert TrimStart(s) == s;
  }

  /** A string made of white space only trims to the empty string, and only such a string does. */
  lemma TrimEmptyIff(s: string)
    ensures Trim(s) == [] <==> AllSpace(s)
  {
    var t := TrimStart(s);
    if Trim(s) == [] {
      assert t == [];
      assert s[..|s|] == s;
    }
    if AllSpace(s) {
      assert AllSpace(t);
      assert t == [];
    }
  }

  /** `sub` occurs in `s` starting at index `i`. */
  predicate OccursAt(s: string, sub: string, i: nat) {
    i + |sub| <= |s| && s[i..i + |sub|] == sub
  }

  lemma OccursShift(s: string, sub: string, i: nat)
    requires s != []
    ensures OccursAt(s, sub, i + 1) <==> OccursAt(s[1..], sub, i)
  {
    if i + 1 + |sub| <= |s| {
      assert s[i + 1..i + 1 + |sub|] == s[1..][i..i + |sub|];
    }
  }

  /** `s.includes(sub)`, searched from the left. */
  function Contains(s: string, sub: string): (r: bool)
    ensures r <==> exists i: nat :: OccursAt(s, sub, i)
  {
    if sub <= s then
      assert OccursAt(s, sub, 0);
      true
    else if |s| <= |sub| then
      assert forall i: nat :: !OccursAt(s, sub, i) by {
        forall i: nat ensures !OccursAt(s, sub, i) {
          if i == 0 && |s| == |sub| {
            assert s[0..|sub|] == s;
          }
        }
      }
      false
    else
      var r := Contains(s[1..], sub);
      if r then
        var i: nat :| OccursAt(s[1..], sub, i);
        OccursShift(s, sub, i);
        true
      else
        assert forall i: nat :: !OccursAt(s, sub, i) by {
          forall i: nat ensures !OccursAt(s, sub, i) {
            if i > 0 {
              OccursShift(s, sub, i - 1);
            }
          }
        }
        false
  }

  /** The index in `keys` of the first key that `s` contains, if any (a search that stops at the first hit). */
  function FirstContained(s: string, keys: seq<string>): (r: Option<nat>)
    ensures r.Some? ==> r.value < |keys| && Contains(s, keys[r.value])
    ensures r.Some? ==> forall k :: 0 <= k < r.value ==> !Contains(s, keys[k])
    ensures r.None? ==> forall k :: 0 <= k < |keys| ==> !Contains(s, keys[k])
  {
    if keys == [] then None
    else if Contains(s, keys[0]) then Some(0)
    else match FirstContained(s, keys[1..])
      case None => None
      case Some(k) => Some(k + 1)
  }

  /** `Array.prototype.join(sep)` for a one-character separator. */
  function Join(pieces: seq<string>, sep: char): string {
    if pieces == [] then []
    else if |pieces| == 1 then pieces[0]
    else pieces[0] + [sep] + Join(pieces[1..], sep)
  }

  /** `String.prototype.split(sep)` for a one-character separator: the pieces between separators. */
  function Split(s: string, sep: char): (r: seq<string>)
    ensures |r| == multiset(s)[sep] + 1
    ensures forall k :: 0 <= k < |r| ==> sep !in r[k]
  {
    if s == [] then [[]]
    else
      var rest := Split(s[1..], sep);
      assert s == [s[0]] + s[1..];
      if s[0] == sep then [[]] + rest else [[s[0]] + rest[0]] + rest[1..]
  }

  /** Joining after an empty first piece starts with the separator. */
  lemma JoinEmptyFirst(rest: seq<string>, sep: char)
    requires |rest| >= 1
    ensures Join([[]] + rest, sep) == [sep] + Join(rest, sep)
  {
    var r := [[]] + rest;
    assert r[0] == [] && r[1..] == rest;
    assert Join(r, sep) == [] + [sep] + Join(rest, sep);
  }

  /** Joining after a character is put in front of the first piece puts it in front of the join. */
  lemma JoinConsFirst(c: char, rest: seq<string>, sep: char)
    requires |rest| >= 1
    ensures Join([[c] + rest[0]] + rest[1..], sep) == [c] + Join(rest, sep)
  {
    var r := [[c] + rest[0]] + rest[1..];
    if |rest| > 1 {
      var tail := Join(rest[1..], sep);
      assert r[0] == [c] + rest[0] && r[1..] == rest[1..];
      assert Join(r, sep) == r[0] + [sep] + tail;
      assert Join(rest, sep) == rest[0] + [sep] + tail;
      assert [c] + rest[0] + [sep] + tail == [c] + (rest[0] + [sep] + tail);
    }
  }

  /** Joining the pieces of a split gives back the string. */
  lemma {:induction false} JoinSplit(s: string, sep: char)
    ensures Join(Split(s, sep), sep) == s
  {
    if s != [] {
      var rest := Split(s[1..], sep);
      JoinSplit(s[1..], sep);
      if s[0] == sep {
        assert Split(s, sep) == [[]] + rest;
        JoinEmptyFirst(rest, sep);
      } else {
        assert Split(s, sep) == [[s[0]] + rest[0]] + rest[1..];
        JoinConsFirst(s[0], rest, sep);
      }
      assert Join(Split(s, sep), sep) == [s[0]] + s[1..];
      assert [s[0]] + s[1..] == s;
    }
  }

  /** Splitting the join of pieces that contain no separator gives back the pieces. */
  lemma {:induction false} SplitJoin(pieces: seq<string>, sep: char)
    requires |pieces| >= 1
    requires forall k :: 0 <= k < |pieces| ==> sep !in pieces[k]
    ensures Split(Join(pieces, sep), sep) == pieces
  {
    if |pieces| == 1 {
      SplitNoSep(pieces[0], sep);
    } else {
      SplitJoin(pieces[1..], sep);
      SplitAfterSep(pieces[0], Join(pieces[1..], sep), sep);
      assert [pieces[0]] + pieces[1..] == pieces;
    }
  }

  lemma {:induction false} SplitNoSep(s: string, sep: char)
    requires sep !in s
    ensures Split(s, sep) == [s]
  {
    if s != [] {
      SplitNoSep(s[1..], sep);
      assert [s[0]] + s[1..] == s;
    }
  }

  lemma {:induction false} SplitAfterSep(a: string, b: string, sep: char)
    requires sep !in a
    ensures Split(a + [sep] + b, sep) == [a] + Split(b, sep)
  {
    if a == [] {
      assert ([sep] + b)[1..] == b;
    } else {
      assert (a + [sep] + b)[1..] == a[1..] + [sep] + b;
      SplitAfterSep(a[1..], b, sep);
      assert [a[0]] + a[1..] == a;
    }
  }

  /** A string cut out of `s` holds no character `s` does not hold. */
  lemma SliceLacks(r: string, s: string, c: char)
    requires IsSlice(r, s) && c !in s
    ensures c !in r
  {
  }

  /** `s.split(sep).map(p => p.trim())`: every piece of `s`, trimmed, in order. */
  function TrimmedSplit(s: string, sep: char): (r: seq<string>)
    ensures |r| == |Split(s, sep)| == multiset(s)[sep] + 1
    ensures forall k :: 0 <= k < |r| ==> r[k] == Trim(Split(s, sep)[k])
    ensures forall t :: t in r ==> sep !in t && Trim(t) == t
  {
    var pieces := Split(s, sep);
    var r := seq(|pieces|, k requires 0 <= k < |pieces| => Trim(pieces[k]));
    forall t | t in r
      ensures sep !in t && Trim(t) == t
    {
      var k :| 0 <= k < |r| && r[k] == t;
      SliceLacks(t, pieces[k], sep);
      TrimUntouched(t);
    }
    r
  }

  /** No character of `s` is white space. */
  predicate NoSpace(s: string) {
    forall i :: 0 <= i < |s| ==> !IsSpace(s[i])
  }

  /**
   * `s.replace(/\s+/g, '_')`: every maximal run of white space becomes one underscore.
   * `inRun` says whether the character before `s` was white space of a run already replaced.
   */
  function CollapseSpaces(s: string, inRun: bool := false): (r: string)
    ensures |r| <= |s|
    ensures NoSpace(r)
  {
    if s == [] then []
    else if IsSpace(s[0]) then
      (if inRun then [] else ['_']) + CollapseSpaces(s[1..], true)
    else [s[0]] + CollapseSpaces(s[1..], false)
  }

  /**
   * A white-space run between text without white space and text that does not start with
   * white space becomes exactly one underscore.
   */
  lemma CollapseOneRun(x: string, w: string, y: string)
    requires NoSpace(x) && w != [] && AllSpace(w) && (y == [] || !IsSpace(y[0]))
    ensures CollapseSpaces(x + w + y) == x + "_" + CollapseSpaces(y)
  {
    var t := w + y;
    assert x + w + y == x + t;
    CollapsePlain(x, t);
    CollapseRun(w, y, false);
    var c := CollapseSpaces(y);
    assert CollapseSpaces(t) == "_" + c;
    assert x + ("_" + c) == x + "_" + c;
  }

  /** Text without white space at the front is copied as it is. */
  lemma {:induction false} CollapsePlain(x: string, t: string)
    requires NoSpace(x)
    ensures CollapseSpaces(x + t) == x + CollapseSpaces(t)
  {
    if x != [] {
      assert (x + t)[0] == x[0] && !IsSpace(x[0]);
      assert (x + t)[1..] == x[1..] + t;
      CollapsePlain(x[1..], t);
      assert [x[0]] + x[1..] == x;
    } else {
      assert x + t == t;
    }
  }

  /** Text without white space is left unchanged. */
  lemma CollapseNoSpace(s: string)
    requires NoSpace(s)
    ensures CollapseSpaces(s) == s
  {
    CollapsePlain(s, []);
    assert s + [] == s;
  }

  /** A run of white space followed by text that does not start with white space. */
  lemma {:induction false} CollapseRun(w: string, y: string, inRun: bool)
    requires w != [] && AllSpace(w) && (y == [] || !IsSpace(y[0]))
    ensures CollapseSpaces(w + y, inRun) == (if inRun then "" else "_") + CollapseSpaces(y)
  {
    assert (w + y)[0] == w[0] && (w + y)[1..] == w[1..] + y;
    if |w| == 1 {
      assert w[1..] + y == y;
    } else {
      CollapseRun(w[1..], y, true);
    }
  }

  /**
   * Lengthening a run of white space by one character does not change the collapsed string:
   * titles that differ only in the lengths of their white-space runs collapse alike.
   */
  lemma {:induction false} CollapseLongerRun(a: string, w: char, w': char, b: string, inRun: bool := false)
    requires IsSpace(w) && IsSpace(w')
    ensures CollapseSpaces(a + [w] + b, inRun) == CollapseSpaces(a + [w, w'] + b, inRun)
  {
    if a == [] {
      assert ([w] + b)[1..] == b;
      assert ([w, w'] + b)[1..] == [w'] + b;
      assert ([w'] + b)[1..] == b;
      assert [] + [w] + b == [w] + b;
      assert [] + [w, w'] + b == [w, w'] + b;
    } else {
      assert (a + [w] + b)[1..] == a[1..] + [w] + b;
      assert (a + [w, w'] + b)[1..] == a[1..] + [w, w'] + b;
      CollapseLongerRun(a[1..], w, w', b, IsSpace(a[0]));
    }
  }

  function DigitValue(c: char): nat
    requires IsDigit(c)
  {
    c as int - '0' as int
  }

  /** The decimal value of a string of digits. */
  function DecimalValue(s: string): nat
    requires forall i :: 0 <= i < |s| ==> IsDigit(s[i])
  {
    if s == [] then 0 else DecimalValue(s[..|s| - 1]) * 10 + DigitValue(s[|s| - 1])
  }

  /** The decimal rendering of a natural number, as `String(n)` gives it. */
  function NatToString(n: nat): (r: string)
    ensures r != [] && forall i :: 0 <= i < |r| ==> IsDigit(r[i])
    ensures DecimalValue(r) == n
    ensures n > 0 ==> r[0] != '0'
  {
    var d := [('0' as int + n % 10) as char];
    if n < 10 then d
    else
      var r := NatToString(n / 10) + d;
      assert r[..|r| - 1] == NatToString(n / 10);
      r
  }

  /** `String(n)` for an integer: a minus sign in front of the magnitude of a negative number. */
  function IntToString(n: int): (r: string)
    ensures r != []
    ensures n >= 0 ==> r == NatToString(n)
    ensures n < 0 ==> r == "-" + NatToString(-n)
  {
    if n < 0 then "-" + NatToString(-n) else NatToString(n)
  }

  /** The longest prefix of `s` made of decimal digits. */
  function DigitPrefix(s: string): (d: string)
    ensures d <= s
    ensures forall i :: 0 <= i < |d| ==> IsDigit(d[i])
    ensures |d| < |s| ==> !IsDigit(s[|d|])
  {
    if s != [] && IsDigit(s[0]) then [s[0]] + DigitPrefix(s[1..]) else []
  }

  /**
   * `parseInt(s)` in base ten: leading white space is skipped, one sign is read, then the longest
   * run of digits; no digits gives NaN (`None`).
   */
  function ParseInt(s: string): (r: Option<int>)
    ensures r.None? <==> DigitPrefix(Unsigned(TrimStart(s))) == []
  {
    var t := TrimStart(s);
    var d := DigitPrefix(Unsigned(t));
    if d == [] then None
    else
      var v: int := DecimalValue(d);
      Some(if t[0] == '-' then -v else v)
  }

  /** `s` without one leading sign character. */
  function Unsigned(s: string): string {
    if s != [] && (s[0] == '-' || s[0] == '+') then s[1..] else s
  }

  lemma {:induction false} DigitPrefixAll(s: string)
    requires forall i :: 0 <= i < |s| ==> IsDigit(s[i])
    ensures DigitPrefix(s) == s
  {
    if s != [] {
      DigitPrefixAll(s[1..]);
      assert [s[0]] + s[1..] == s;
    }
  }

  /** A signed run of digits with nothing in front of it reads as its value. */
  lemma ParseDigits(t: string, d: string)
    requires t != [] && !IsSpace(t[0]) && Unsigned(t) == d && d != []
    requires forall i :: 0 <= i < |d| ==> IsDigit(d[i])
    ensures ParseInt(t) == Some(if t[0] == '-' then -(DecimalValue(d) as int) else DecimalValue(d))
  {
    assert TrimStart(t) == t;
    DigitPrefixAll(d);
  }

  /** The rendering of a natural number reads back as the number. */
  lemma NatRoundTrip(n: nat)
    ensures ParseInt(NatToString(n)) == Some(n)
  {
    var digits := NatToString(n);
    assert IsDigit(digits[0]);
    ParseDigits(digits, digits);
  }

  /** The rendering of a negative number, a minus sign and the magnitude, reads back as the number. */
  lemma NegativeRoundTrip(m: nat)
    ensures ParseInt("-" + NatToString(m)) == Some(-(m as int))
  {
    var digits := NatToString(m);
    var shown := "-" + digits;
    assert shown[0] == '-' && shown[1..] == digits;
    ParseDigits(shown, digits);
  }

  /** Reading back the decimal rendering of an integer gives the integer. */
  lemma ParseIntRoundTrip(n: int)
    ensures ParseInt(IntToString(n)) == Some(n)
  {
    var shown := IntToString(n);
    if n < 0 {
      var m: nat := -n;
      assert shown == "-" + NatToString(m);
      NegativeRoundTrip(m);
    } else {
      assert shown == NatToString(n);
      NatRoundTrip(n);
    }
  }

  /** `a < b` on strings: the first differing character decides, and a proper prefix comes first. */
  predicate Less(a: string, b: string) {
    if a == [] then b != []
    else if b == [] then false
    else if a[0] != b[0] then a[0] < b[0]
    else Less(a[1..], b[1..])
  }

  lemma {:induction false} LessIrreflexive(a: string)
    ensures !Less(a, a)
  {
    if a != [] {
      LessIrreflexive(a[1..]);
    }
  }

  lemma {:induction false} LessTransitive(a: string, b: string, c: string)
    requires Less(a, b) && Less(b, c)
    ensures Less(a, c)
  {
    if a != [] && b != [] && c != [] && a[0] == b[0] && b[0] == c[0] {
      LessTransitive(a[1..], b[1..], c[1..]);
    }
  }

  /** Two different strings are ordered one way or the other. */
  lemma {:induction false} LessTotal(a: string, b: string)
    requires a != b
    ensures Less(a, b) || Less(b, a)
  {
    if a != [] && b != [] && a[0] == b[0] {
      assert a == [a[0]] + a[1..] && b == [b[0]] + b[1..];
      LessTotal(a[1..], b[1..]);
    }
  }

  lemma {:induction false} LessAsymmetric(a: string, b: string)
    requires Less(a, b)
    ensures !Less(b, a)
  {
    if a != [] && b != [] && a[0] == b[0] {
      LessAsymmetric(a[1..], b[1..]);
    }
  }
}
