/**
 * The spreadsheet side (src/utils/sheets.js): the quote-aware CSV line scanner and the step that
 * turns the exported CSV text into rows with fixed field names.
 */
module Sheets {
  import opened Wrappers
  import opened Text
  import opened Records
  import opened Seqs

  /**
   * The scanner of `parseCSVLine` run over the rest `s` of a line, with the state it carries:
   * whether it is inside quotes, the cell read so far and the cells already completed.
   * A doubled quote inside quotes is one literal quote; any other quote toggles the quoting;
   * a comma outside quotes ends the cell.
   */
  function Scan(s: string, inQuotes: bool, cell: string, done: seq<string>): seq<string>
    decreases |s|
  {
    if s == [] then done + [cell]
    else if s[0] == '"' then
      if inQuotes && |s| > 1 && s[1] == '"' then Scan(s[2..], inQuotes, cell + ['"'], done)
      else Scan(s[1..], !inQuotes, cell, done)
    else if s[0] == ',' && !inQuotes then Scan(s[1..], inQuotes, [], done + [cell])
    else Scan(s[1..], inQuotes, cell + [s[0]], done)
  }

  /** The cells of one CSV line. */
  function Cells(line: string): seq<string> {
    Scan(line, false, [], [])
  }

  /** `parseCSVLine`: one pass over the characters of `line`. */
  method ParseCSVLine(line: string) returns (result: seq<string>)
    ensures result == Cells(line)
  {
    result := [];
    var cell := "";
    var inQuotes := false;
    var i := 0;
    while i < |line|
      invariant 0 <= i <= |line|
      invariant Scan(line[i..], inQuotes, cell, result) == Cells(line)
    {
      var ch := line[i];
      if ch == '"' {
        if inQuotes && i + 1 < |line| && line[i + 1] == '"' {
          cell := cell + ['"'];
          i := i + 1;
        } else {
          inQuotes := !inQuotes;
        }
      } else if ch == ',' && !inQuotes {
        result := result + [cell];
        cell := "";
      } else {
        cell := cell + [ch];
      }
      i := i + 1;
    }
    result := result + [cell];
  }

  /** The number of commas in `s` that the scanner meets outside quotes. */
  function CommasOutsideQuotes(s: string, inQuotes: bool): nat
    decreases |s|
  {
    if s == [] then 0
    else if s[0] == '"' then
      if inQuotes && |s| > 1 && s[1] == '"' then CommasOutsideQuotes(s[2..], inQuotes)
      else CommasOutsideQuotes(s[1..], !inQuotes)
    else (if s[0] == ',' && !inQuotes then 1 else 0) + CommasOutsideQuotes(s[1..], inQuotes)
  }

  lemma {:induction false} ScanCount(s: string, inQuotes: bool, cell: string, done: seq<string>)
    ensures |Scan(s, inQuotes, cell, done)| == |done| + 1 + CommasOutsideQuotes(s, inQuotes)
    decreases |s|
  {
    if s == [] {
    } else if s[0] == '"' {
      if inQuotes && |s| > 1 && s[1] == '"' {
        ScanCount(s[2..], inQuotes, cell + ['"'], done);
      } else {
        ScanCount(s[1..], !inQuotes, cell, done);
      }
    } else if s[0] == ',' && !inQuotes {
      ScanCount(s[1..], inQuotes, [], done + [cell]);
    } else {
      ScanCount(s[1..], inQuotes, cell + [s[0]], done);
    }
  }

  /** A line has at least one cell, and exactly one more than it has commas outside quotes. */
  lemma CellCount(line: string)
    ensures |Cells(line)| == CommasOutsideQuotes(line, false) + 1
    ensures |Cells(line)| >= 1
  {
    ScanCount(line, false, [], []);
  }

  /** The cells after a comma: the finished cell, then an empty cell that the rest extends. */
  lemma CommaCells(done: seq<string>, cell: string, rest: seq<string>)
    requires |rest| >= 1
    ensures done + [cell] + [[] + rest[0]] + rest[1..] == done + [cell + []] + ([[]] + rest)[1..]
  {
    assert [] + rest[0] == rest[0] && cell + [] == cell;
    assert ([[]] + rest)[1..] == rest;
    assert [rest[0]] + rest[1..] == rest;
  }

  lemma {:induction false} ScanUnquoted(s: string, cell: string, done: seq<string>)
    requires '"' !in s
    ensures Scan(s, false, cell, done) == done + [cell + Split(s, ',')[0]] + Split(s, ',')[1..]
  {
    if s == [] {
      assert cell + [] == cell;
    } else {
      assert s[0] in s;
      var rest := Split(s[1..], ',');
      if s[0] == ',' {
        ScanUnquoted(s[1..], [], done + [cell]);
        assert Split(s, ',') == [[]] + rest;
        CommaCells(done, cell, rest);
      } else {
        ScanUnquoted(s[1..], cell + [s[0]], done);
        var first := [s[0]] + rest[0];
        assert Split(s, ',') == [first] + rest[1..];
        assert cell + [s[0]] + rest[0] == cell + first;
      }
    }
  }

  /** The pieces rebuilt from their first piece and the others. */
  lemma FirstAndRest(pieces: seq<string>)
    requires |pieces| >= 1
    ensures [] + [[] + pieces[0]] + pieces[1..] == pieces
  {
    assert [] + pieces[0] == pieces[0];
    assert [pieces[0]] + pieces[1..] == pieces;
  }

  /** Without quote characters the cells are exactly the comma-separated pieces of the line. */
  lemma UnquotedCells(line: string)
    requires '"' !in line
    ensures Cells(line) == Split(line, ',')
    ensures Join(Cells(line), ',') == line
  {
    ScanUnquoted(line, [], []);
    FirstAndRest(Split(line, ','));
    JoinSplit(line, ',');
  }

  /** A cell's content with every quote doubled. */
  function Escape(c: string): (r: string)
    ensures |r| == |c| + multiset(c)['"']
  {
    if c == [] then []
    else
      assert c == [c[0]] + c[1..];
      (if c[0] == '"' then ['"', '"'] else [c[0]]) + Escape(c[1..])
  }

  /**
   * A row written as a CSV line with every field quoted: an opening quote, the first cell
   * escaped, a closing quote, then the other fields each after a comma.
   */
  function EncodeRow(cells: seq<string>): string
    requires |cells| >= 1
    decreases |cells|, 1
  {
    ['"'] + (Escape(cells[0]) + ['"'] + EncodedTail(cells))
  }

  /** Inside quotes the scanner reads an escaped cell back, up to the closing quote. */
  lemma {:induction false} ScanEscaped(c: string, rest: string, cell: string, done: seq<string>)
    requires rest == [] || rest[0] == ','
    ensures Scan(Escape(c) + ['"'] + rest, true, cell, done) == Scan(rest, false, cell + c, done)
  {
    var s := Escape(c) + ['"'] + rest;
    if c == [] {
      assert s == ['"'] + rest;
      assert s[1..] == rest;
      assert cell + c == cell;
    } else if c[0] == '"' {
      assert s == ['"', '"'] + (Escape(c[1..]) + ['"'] + rest);
      assert s[2..] == Escape(c[1..]) + ['"'] + rest;
      ScanEscaped(c[1..], rest, cell + ['"'], done);
      assert cell + ['"'] + c[1..] == cell + c;
    } else {
      assert s == [c[0]] + (Escape(c[1..]) + ['"'] + rest);
      assert s[1..] == Escape(c[1..]) + ['"'] + rest;
      ScanEscaped(c[1..], rest, cell + [c[0]], done);
      assert cell + [c[0]] + c[1..] == cell + c;
    }
  }

  /** What follows the first field of an encoded row: nothing, or a comma and the other fields. */
  function EncodedTail(cells: seq<string>): (t: string)
    requires |cells| >= 1
    ensures t == [] || t[0] == ','
    decreases |cells|, 0
  {
    if |cells| == 1 then [] else [','] + EncodeRow(cells[1..])
  }

  lemma {:induction false} ScanEncoded(cells: seq<string>, done: seq<string>)
    requires |cells| >= 1
    ensures Scan(EncodeRow(cells), false, [], done) == done + cells
  {
    var c := cells[0];
    var rest := EncodedTail(cells);
    var e := EncodeRow(cells);
    assert e[0] == '"' && e[1..] == Escape(c) + ['"'] + rest;
    assert Scan(e, false, [], done) == Scan(e[1..], true, [], done);
    ScanEscaped(c, rest, [], done);
    assert [] + c == c;
    if |cells| == 1 {
      assert Scan(rest, false, c, done) == done + [c];
    } else {
      assert rest[0] == ',' && rest[1..] == EncodeRow(cells[1..]);
      assert Scan(rest, false, c, done) == Scan(EncodeRow(cells[1..]), false, [], done + [c]);
      ScanEncoded(cells[1..], done + [c]);
      assert done + [c] + cells[1..] == done + cells;
    }
  }

  /**
   * Round trip: writing every cell as a quoted field (internal quotes doubled, commas kept)
   * and joining the fields with commas parses back to the same cells.
   */
  lemma EncodeRowRoundTrip(cells: seq<string>)
    requires |cells| >= 1
    ensures Cells(EncodeRow(cells)) == cells
  {
    ScanEncoded(cells, []);
  }

  /**
   * `s.replace(/^"|"$/g, '')`: a leading quote is removed when there is one, and a trailing
   * quote when one is left after that (a lone `"` becomes empty).
   */
  function StripQuotes(s: string): (r: string)
    ensures var front := if s != [] && s[0] == '"' then 1 else 0;
      var back := if |s| > front && s[|s| - 1] == '"' then 1 else 0;
      |r| == |s| - front - back && r == s[front..front + |r|]
  {
    var t := if s != [] && s[0] == '"' then s[1..] else s;
    if t != [] && t[|t| - 1] == '"' then t[..|t| - 1] else t
  }

  /**
   * Stripping undoes one pair of surrounding quotes or a quote on one side only, and leaves
   * an unquoted string alone.
   */
  lemma StripQuotesSurrounding(x: string)
    ensures StripQuotes("\"" + x + "\"") == x
    ensures (x == [] || x[|x| - 1] != '"') ==> StripQuotes("\"" + x) == x
    ensures (x == [] || x[0] != '"') ==> StripQuotes(x + "\"") == x
    ensures (x == [] || (x[0] != '"' && x[|x| - 1] != '"')) ==> StripQuotes(x) == x
  {
    var s := "\"" + x + "\"";
    assert s[1..|s| - 1] == x;
    assert ("\"" + x)[1..] == x;
    if x == [] || x[0] != '"' {
      assert (x + "\"")[..|x|] == x;
    }
    if x == [] || (x[0] != '"' && x[|x| - 1] != '"') {
      assert x[0..|x|] == x;
    }
  }

  /** A header cell: trimmed, unquoted, lower-cased. */
  function HeaderName(h: string): (name: string)
    ensures |name| <= |h|
    ensures forall i :: 0 <= i < |name| ==> !('A' <= name[i] <= 'Z')
  {
    var u := StripQuotes(Trim(h));
    assert |u| <= |Trim(h)|;
    Lower(u)
  }

  /** `(vals[i] || '').trim().replace(/^"|"$/g, '')`: a missing cell reads as ''. */
  function CellText(vals: seq<string>, i: nat): (t: string)
    ensures i >= |vals| ==> t == ""
    ensures i < |vals| ==> |t| <= |vals[i]|
  {
    var t := Trim(if i < |vals| then vals[i] else "");
    var u := StripQuotes(t);
    assert |u| <= |t|;
    u
  }

  /**
   * A quoted cell with white space around it reads as the text between the quotes;
   * as a header it reads as that text in lower case.
   */
  lemma QuotedCell(pre: string, x: string, post: string)
    requires AllSpace(pre) && AllSpace(post)
    ensures CellText([pre + "\"" + x + "\"" + post], 0) == x
    ensures HeaderName(pre + "\"" + x + "\"" + post) == Lower(x)
  {
    var q := "\"" + x + "\"";
    assert pre + "\"" + x + "\"" + post == pre + q + post;
    TrimAround(pre, q, post);
    StripQuotesSurrounding(x);
  }

  /**
   * An unquoted cell with white space around it reads as its text;
   * as a header it reads as that text in lower case.
   */
  lemma PlainCell(pre: string, x: string, post: string)
    requires AllSpace(pre) && AllSpace(post)
    requires x != [] && !IsSpace(x[0]) && !IsSpace(x[|x| - 1]) && x[0] != '"' && x[|x| - 1] != '"'
    ensures CellText([pre + x + post], 0) == x
    ensures HeaderName(pre + x + post) == Lower(x)
  {
    TrimAround(pre, x, post);
    StripQuotesSurrounding(x);
  }

  /** The cell texts under the first `count` columns of a line. */
  function CellTexts(vals: seq<string>, count: nat): (texts: seq<string>)
    ensures |texts| == count
    ensures forall i :: 0 <= i < count ==> texts[i] == CellText(vals, i)
  {
    seq(count, i requires 0 <= i < count => CellText(vals, i))
  }

  /** The dictionary built by assigning `values[i]` to `keys[i]` in order: a later key overwrites an earlier one. */
  function Assign(keys: seq<string>, values: seq<string>): (m: map<string, string>)
    requires |keys| == |values|
    ensures m.Keys == set k | k in keys
  {
    if keys == [] then map[]
    else
      var n := |keys| - 1;
      assert forall k :: k in keys <==> k in keys[..n] || k == keys[n];
      Assign(keys[..n], values[..n])[keys[n] := values[n]]
  }

  /** A key is bound to the value of its last occurrence. */
  lemma {:induction false} AssignLastWins(keys: seq<string>, values: seq<string>, j: nat)
    requires |keys| == |values| && j < |keys|
    requires forall k :: j < k < |keys| ==> keys[k] != keys[j]
    ensures Assign(keys, values)[keys[j]] == values[j]
  {
    var n := |keys| - 1;
    if j < n {
      var prefix := keys[..n];
      assert forall k :: j < k < |prefix| ==> prefix[k] != prefix[j] by {
        forall k | j < k < |prefix| ensures prefix[k] != prefix[j] {
          assert prefix[k] == keys[k];
        }
      }
      AssignLastWins(prefix, values[..n], j);
    }
  }

  /** The `raw` dictionary that `headers.forEach` fills for one line. */
  function RawRow(headers: seq<string>, vals: seq<string>): (raw: map<string, string>)
    ensures raw.Keys == set h | h in headers
  {
    Assign(headers, CellTexts(vals, |headers|))
  }

  /** The value of a header is the cell under the last column with that name. */
  lemma RawRowLastWins(headers: seq<string>, vals: seq<string>, j: nat)
    requires j < |headers|
    requires forall k :: j < k < |headers| ==> headers[k] != headers[j]
    ensures RawRow(headers, vals)[headers[j]] == CellText(vals, j)
  {
    AssignLastWins(headers, CellTexts(vals, |headers|), j);
  }

  /** One more key assigned: the dictionary of the longer prefix is the shorter one's, updated. */
  lemma AssignStep(keys: seq<string>, values: seq<string>, i: nat)
    requires |keys| == |values| && i < |keys|
    ensures Assign(keys[..i + 1], values[..i + 1]) == Assign(keys[..i], values[..i])[keys[i] := values[i]]
  {
    assert keys[..i + 1][..i] == keys[..i];
    assert values[..i + 1][..i] == values[..i];
  }

  /** The `forEach` over the headers that fills `raw`. */
  method BuildRaw(headers: seq<string>, vals: seq<string>) returns (raw: map<string, string>)
    ensures raw == RawRow(headers, vals)
  {
    ghost var texts := CellTexts(vals, |headers|);
    raw := map[];
    var i := 0;
    while i < |headers|
      invariant 0 <= i <= |headers|
      invariant raw == Assign(headers[..i], texts[..i])
    {
      AssignStep(headers, texts, i);
      raw := raw[headers[i] := CellText(vals, i)];
      i := i + 1;
    }
    assert headers[..|headers|] == headers;
    assert texts[..|headers|] == texts;
  }

  /** Column `key` is absent or empty in `raw`. */
  predicate Unfilled(raw: map<string, string>, key: string) {
    key !in raw || raw[key] == ""
  }

  /** `raw.k1 || raw.k2 || … || ''`: the first non-empty value among `keys`, or ''. */
  function Pick(raw: map<string, string>, keys: seq<string>): (r: string)
    ensures r == "" <==> forall k :: 0 <= k < |keys| ==> Unfilled(raw, keys[k])
    ensures r != "" ==> exists k :: FirstFilled(raw, keys, k) && raw[keys[k]] == r
  {
    if keys == [] then ""
    else if !Unfilled(raw, keys[0]) then
      assert FirstFilled(raw, keys, 0);
      raw[keys[0]]
    else
      var r := Pick(raw, keys[1..]);
      if r != "" then
        var k :| FirstFilled(raw, keys[1..], k) && raw[keys[1..][k]] == r;
        assert FirstFilled(raw, keys, k + 1);
        r
      else r
  }

  /** `keys[k]` is the first column among `keys` that holds a value. */
  predicate FirstFilled(raw: map<string, string>, keys: seq<string>, k: int) {
    0 <= k < |keys| && !Unfilled(raw, keys[k]) && forall l :: 0 <= l < k ==> Unfilled(raw, keys[l])
  }

  const ROW_FIELDS: set<string> := {"title", "year", "genre", "status", "subs", "rating", "notes",
    "service", "overview", "votes", "rottenTomatoes", "posterUrl"}

  /** The raw columns a row field falls back on, in order. */
  function Columns(field: string): (cols: seq<string>)
    ensures 1 <= |cols| <= 3
    ensures cols[0] == field || field in {"overview", "rottenTomatoes", "posterUrl"}
  {
    match field
    case "title" => ["title", "show", "name"]
    case "status" => ["status", "watched"]
    case "rating" => ["rating", "imdb"]
    case "notes" => ["notes", "comments"]
    case "service" => ["service", "platform", "streaming"]
    case "overview" => ["plot", "overview", "description"]
    case "rottenTomatoes" => ["rotten tomatoes", "rt"]
    case "posterUrl" => ["poster"]
    case _ => [field]
  }

  /** A field of the row: the picked text, except that a poster URL with no value is `null`. */
  function FieldValue(raw: map<string, string>, field: string): (v: Value)
    ensures v == Null <==> field == "posterUrl" && Pick(raw, ["poster"]) == ""
    ensures v != Null ==> v == Str(Pick(raw, Columns(field)))
  {
    var text := Pick(raw, Columns(field));
    if field == "posterUrl" && text == "" then Null else Str(text)
  }

  /** The normalised row built from one line's `raw` dictionary. */
  function SheetRow(raw: map<string, string>): (row: Record)
    ensures row.Keys == ROW_FIELDS
    ensures forall f :: f in ROW_FIELDS ==> row[f] == FieldValue(raw, f)
  {
    map f | f in ROW_FIELDS :: FieldValue(raw, f)
  }

  /** Leaving out a column that is not among `keys` does not change what `Pick` finds. */
  lemma {:induction false} PickIgnores(raw: map<string, string>, keys: seq<string>, h: string)
    requires h !in keys
    ensures Pick(raw - {h}, keys) == Pick(raw, keys)
  {
    if keys != [] {
      assert Unfilled(raw - {h}, keys[0]) == Unfilled(raw, keys[0]);
      PickIgnores(raw, keys[1..], h);
    }
  }

  /** No row field falls back on a column named `__proto__`. */
  lemma ProtoNotAColumn(f: string)
    requires f in ROW_FIELDS
    ensures "__proto__" !in Columns(f)
  {
  }

  /** A field's value does not depend on a column named `__proto__`. */
  lemma FieldIgnoresProto(raw: map<string, string>, f: string)
    requires f in ROW_FIELDS
    ensures FieldValue(raw - {"__proto__"}, f) == FieldValue(raw, f)
  {
    ProtoNotAColumn(f);
    PickIgnores(raw, Columns(f), "__proto__");
  }

  /**
   * A row is the same whether or not `raw` holds a column named `__proto__`, since no field falls
   * back on it.
   */
  lemma ProtoColumnIgnored(raw: map<string, string>)
    ensures SheetRow(raw - {"__proto__"}) == SheetRow(raw)
  {
    var without := SheetRow(raw - {"__proto__"});
    var with := SheetRow(raw);
    forall f | f in ROW_FIELDS
      ensures without[f] == with[f]
    {
      FieldIgnoresProto(raw, f);
    }
    SameRecord(without, with);
  }

  /** Two records with the same keys and the same value at every key are equal. */
  lemma SameRecord(a: Record, b: Record)
    requires a.Keys == b.Keys && forall k :: k in a ==> a[k] == b[k]
    ensures a == b
  {
  }

  /** A row's title is the first non-empty one of the title, show and name columns. */
  lemma SheetRowTitle(raw: map<string, string>)
    ensures Get(SheetRow(raw), "title") == Str(Pick(raw, ["title", "show", "name"]))
    ensures HasTitle(SheetRow(raw)) <==> exists k :: FirstFilled(raw, ["title", "show", "name"], k)
  {
    var cols := ["title", "show", "name"];
    if !HasTitle(SheetRow(raw)) {
      forall k | 0 <= k < 3 ensures !FirstFilled(raw, cols, k) {
        assert Unfilled(raw, cols[k]);
      }
    }
  }

  predicate NonBlank(line: string) {
    Trim(line) != ""
  }

  predicate HasTitle(row: Record) {
    Truthy(Get(row, "title"))
  }

  /** The lines of the CSV text that hold something other than white space, in order. */
  function DataLines(text: string): (lines: seq<string>)
    ensures forall line :: line in lines <==> line in Split(text, '\n') && Trim(line) != ""
  {
    Filter(Split(text, '\n'), NonBlank)
  }

  /** Every line of `lines` turned into a row under `headers`, in order. */
  function RowsOf(headers: seq<string>, lines: seq<string>): (rows: seq<Record>)
    ensures |rows| == |lines|
    ensures forall i :: 0 <= i < |lines| ==> rows[i] == SheetRow(RawRow(headers, Cells(lines[i])))
  {
    seq(|lines|, i requires 0 <= i < |lines| => SheetRow(RawRow(headers, Cells(lines[i]))))
  }

  function Headers(line: string): (hs: seq<string>)
    ensures |hs| == |Cells(line)|
    ensures forall i :: 0 <= i < |hs| ==> hs[i] == HeaderName(Cells(line)[i])
  {
    var cells := Cells(line);
    seq(|cells|, i requires 0 <= i < |cells| => HeaderName(cells[i]))
  }

  /** The text-to-rows part of `fetchSheetData`. */
  function SheetRows(text: string): seq<Record> {
    var lines := DataLines(text);
    if |lines| < 2 then []
    else Filter(RowsOf(Headers(lines[0]), lines[1..]), HasTitle)
  }

  /** Fewer than two non-blank lines give no rows; every line kept holds more than white space. */
  lemma SheetRowsTooShort(text: string)
    ensures |DataLines(text)| < 2 ==> SheetRows(text) == []
    ensures forall line :: line in DataLines(text) ==> Trim(line) != ""
  {
  }

  /**
   * The rows of a sheet are the rows built from the lines after the header line, in line order,
   * with exactly the rows whose title is empty left out (each kept row as many times as it was built).
   */
  lemma SheetRowsKept(text: string)
    requires |DataLines(text)| >= 2
    ensures IsSubsequence(SheetRows(text), RowsOf(Headers(DataLines(text)[0]), DataLines(text)[1..]))
    ensures forall row :: row in RowsOf(Headers(DataLines(text)[0]), DataLines(text)[1..]) && HasTitle(row) ==>
      row in SheetRows(text)
    ensures forall row :: row in SheetRows(text) ==> HasTitle(row)
    ensures multiset(SheetRows(text)) <= multiset(RowsOf(Headers(DataLines(text)[0]), DataLines(text)[1..]))
    ensures forall row :: row in RowsOf(Headers(DataLines(text)[0]), DataLines(text)[1..]) ==>
      multiset(SheetRows(text))[row] ==
        if HasTitle(row) then multiset(RowsOf(Headers(DataLines(text)[0]), DataLines(text)[1..]))[row] else 0
  {
    var lines := DataLines(text);
    FilterIsSubsequence(RowsOf(Headers(lines[0]), lines[1..]), HasTitle);
    FilterCounts(RowsOf(Headers(lines[0]), lines[1..]), HasTitle);
  }

  /** Every row of a sheet carries exactly the twelve fixed fields. */
  lemma SheetRowsFields(text: string)
    ensures forall row :: row in SheetRows(text) ==> row.Keys == ROW_FIELDS
  {
  }
}
