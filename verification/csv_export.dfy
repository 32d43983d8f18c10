/** The CSV export of an analysis (`exportToCSV` in utils/exportUtils.ts).

    `flattenObject` walks the object's properties in order with an
    accumulator: a nested object is flattened under the dotted prefix and its
    entries are copied into the accumulator (`Object.assign`); an array is
    stored as its `JSON.stringify` text; anything else is stored as is. The
    file is the flattened keys joined with commas, a newline, and the values,
    each converted to a string, with `"` doubled and wrapped in quotes, also
    joined with commas. `JSON.stringify` and number formatting are
    parameters; saving the file is not modelled, its name and text are
    returned. */
module CsvExport {
  import opened Outcomes
  import opened Strings
  import opened JsValues

  /** `pre + k` with `pre = prefix.length ? prefix + '.' : ''`. */
  function Prefixed(prefix: string, key: string): string {
    (if |prefix| > 0 then prefix + "." else "") + key
  }

  /** `Object.assign(acc, source)`: each property of `source` in order. */
  function PutAll(acc: seq<Field>, source: seq<Field>): seq<Field>
    decreases |source|
  {
    if source == [] then acc
    else PutAll(Put(acc, source[0].key, source[0].value), source[1..])
  }

  /** A flattened value: never an object or an array. */
  predicate Flat(fields: seq<Field>) {
    forall i :: 0 <= i < |fields| ==> !fields[i].value.JObj? && !fields[i].value.JArr?
  }

  /** The `reduce` over the properties of one object, from accumulator `acc`. */
  function FlattenInto(acc: seq<Field>, fields: seq<Field>, prefix: string, stringify: Json -> string): seq<Field>
    decreases fields
  {
    if fields == [] then acc
    else
      var key := Prefixed(prefix, fields[0].key);
      var acc' :=
        match fields[0].value
        case JObj(inner) => PutAll(acc, FlattenInto([], inner, key, stringify))
        case JArr(_) => Put(acc, key, JStr(stringify(fields[0].value)))
        case _ => Put(acc, key, fields[0].value);
      FlattenInto(acc', fields[1..], prefix, stringify)
  }

  /** `flattenObject(obj, prefix)`. */
  function Flatten(fields: seq<Field>, prefix: string, stringify: Json -> string): seq<Field> {
    FlattenInto([], fields, prefix, stringify)
  }

  // ---- the reference definition: every leaf with its dotted path ----

  /** Every non-object value under its full dotted path, depth first, arrays
      replaced by their JSON text. */
  function Leaves(fields: seq<Field>, prefix: string, stringify: Json -> string): seq<Field>
    decreases fields
  {
    if fields == [] then []
    else
      var key := Prefixed(prefix, fields[0].key);
      var here :=
        match fields[0].value
        case JObj(inner) => Leaves(inner, key, stringify)
        case JArr(_) => [Field(key, JStr(stringify(fields[0].value)))]
        case _ => [Field(key, fields[0].value)];
      here + Leaves(fields[1..], prefix, stringify)
  }

  predicate DistinctKeys(fields: seq<Field>) {
    forall i, j :: 0 <= i < j < |fields| ==> fields[i].key != fields[j].key
  }

  lemma DistinctSlice(s: seq<Field>, lo: nat, hi: nat)
    requires lo <= hi <= |s| && DistinctKeys(s)
    ensures DistinctKeys(s[lo..hi])
  {
    forall i, j | 0 <= i < j < hi - lo ensures s[lo..hi][i].key != s[lo..hi][j].key {
      assert s[lo..hi][i] == s[lo + i] && s[lo..hi][j] == s[lo + j];
    }
  }

  /** The first key after a distinct prefix is not among the prefix's keys. */
  lemma FreshAfter(acc: seq<Field>, source: seq<Field>)
    requires |source| > 0 && DistinctKeys(acc + source)
    ensures source[0].key !in Keys(acc)
  {
    var all := acc + source;
    forall i | 0 <= i < |acc| ensures Keys(acc)[i] != source[0].key {
      assert all[i] == acc[i] && all[|acc|] == source[0];
    }
  }

  /** Assigning properties that are all new appends them in order. */
  lemma {:induction false} PutAllFresh(acc: seq<Field>, source: seq<Field>)
    requires DistinctKeys(acc + source)
    ensures PutAll(acc, source) == acc + source
    decreases |source|
  {
    if source != [] {
      var x := source[0];
      var rest := source[1..];
      ShiftHead(acc, source);
      LeafStep(acc, x, rest, acc + source);
      SplitDistinct(acc, [x], rest);
      PutAllStep(acc, source);
      PutAllFresh(acc + [x], rest);
    }
  }

  lemma ShiftHead(acc: seq<Field>, source: seq<Field>)
    requires |source| > 0
    ensures (acc + [source[0]]) + source[1..] == acc + source
  {
  }

  /** One step of `PutAll` when the first property is new. */
  lemma PutAllStep(acc: seq<Field>, source: seq<Field>)
    requires |source| > 0 && source[0].key !in Keys(acc)
    ensures PutAll(acc, source) == PutAll(acc + [source[0]], source[1..])
  {
    AppendFresh(acc, source[0]);
  }

  /** When no two leaves share a path, flattening lists exactly the leaves:
      the accumulator never overwrites anything. */
  lemma {:induction false} FlattenIntoLeaves(acc: seq<Field>, fields: seq<Field>, prefix: string, stringify: Json -> string)
    requires DistinctKeys(acc + Leaves(fields, prefix, stringify))
    ensures FlattenInto(acc, fields, prefix, stringify) == acc + Leaves(fields, prefix, stringify)
    decreases fields
  {
    if fields == [] {
      assert acc + [] == acc;
    } else {
      var key := Prefixed(prefix, fields[0].key);
      var rest := Leaves(fields[1..], prefix, stringify);
      match fields[0].value
      case JObj(inner) =>
        var here := Leaves(inner, key, stringify);
        SplitDistinct(acc, here, rest);
        assert [] + here == here;
        FlattenIntoLeaves([], inner, key, stringify);
        PutAllFresh(acc, here);
        FlattenIntoLeaves(acc + here, fields[1..], prefix, stringify);
        Assoc(acc, here, rest);
      case JArr(_) =>
        var x := Field(key, JStr(stringify(fields[0].value)));
        SplitDistinct(acc, [x], rest);
        LeafStep(acc, x, rest, acc + ([x] + rest));
        AppendFresh(acc, x);
        FlattenIntoLeaves(acc + [x], fields[1..], prefix, stringify);
        Assoc(acc, [x], rest);
      case _ =>
        var x := Field(key, fields[0].value);
        SplitDistinct(acc, [x], rest);
        LeafStep(acc, x, rest, acc + ([x] + rest));
        AppendFresh(acc, x);
        FlattenIntoLeaves(acc + [x], fields[1..], prefix, stringify);
        Assoc(acc, [x], rest);
    }
  }

  lemma Assoc(a: seq<Field>, b: seq<Field>, c: seq<Field>)
    ensures (a + b) + c == a + (b + c)
  {
  }

  /** The parts of a distinct listing are distinct. */
  lemma SplitDistinct(acc: seq<Field>, here: seq<Field>, rest: seq<Field>)
    requires DistinctKeys(acc + (here + rest))
    ensures DistinctKeys(here) && DistinctKeys(acc + here) && DistinctKeys((acc + here) + rest)
  {
    var all := acc + (here + rest);
    Assoc(acc, here, rest);
    DistinctSlice(all, |acc|, |acc| + |here|);
    assert all[|acc|..|acc| + |here|] == here;
    DistinctSlice(all, 0, |acc| + |here|);
    assert all[..|acc| + |here|] == acc + here;
  }

  /** Splitting a distinct listing after one more field keeps it distinct,
      and that field's key is new to what precedes it. */
  lemma LeafStep(acc: seq<Field>, x: Field, rest: seq<Field>, all: seq<Field>)
    requires all == acc + ([x] + rest) && DistinctKeys(all)
    ensures x.key !in Keys(acc)
  {
    FreshAfter(acc, [x] + rest);
  }

  lemma AppendFresh(acc: seq<Field>, x: Field)
    requires x.key !in Keys(acc)
    ensures Put(acc, x.key, x.value) == acc + [x]
  {
    PutFresh(acc, x.key, x.value);
  }

  /** `flattenObject` agrees with the leaf listing whenever the dotted paths
      are distinct. */
  lemma FlattenIsLeaves(fields: seq<Field>, prefix: string, stringify: Json -> string)
    requires DistinctKeys(Leaves(fields, prefix, stringify))
    ensures Flatten(fields, prefix, stringify) == Leaves(fields, prefix, stringify)
  {
    assert [] + Leaves(fields, prefix, stringify) == Leaves(fields, prefix, stringify);
    FlattenIntoLeaves([], fields, prefix, stringify);
  }

  /** An empty nested object contributes no column at all. */
  lemma EmptyObjectVanishes(acc: seq<Field>, key: string, rest: seq<Field>, prefix: string, stringify: Json -> string)
    ensures FlattenInto(acc, [Field(key, JObj([]))] + rest, prefix, stringify) == FlattenInto(acc, rest, prefix, stringify)
  {
    var fields := [Field(key, JObj([]))] + rest;
    assert fields[1..] == rest;
  }

  // ---- the file text ----

  /** `String(v).replace(/"/g, '""')`: every quote doubled, every other
      character kept as often as it occurs. */
  function Escape(s: string): (r: string)
    ensures Occurrences(r, '"') == 2 * Occurrences(s, '"')
    ensures forall c :: c != '"' ==> Occurrences(r, c) == Occurrences(s, c)
    ensures |r| == |s| + Occurrences(s, '"')
  {
    if s == [] then []
    else
      var head := if s[0] == '"' then "\"\"" else [s[0]];
      var rest := Escape(s[1..]);
      OccurrencesSplit(head, rest);
      head + rest
  }

  /** How often `c` occurs in `s`. */
  function Occurrences(s: string, c: char): nat {
    if s == [] then 0 else (if s[0] == c then 1 else 0) + Occurrences(s[1..], c)
  }

  lemma {:induction false} OccurrencesAppend(a: string, b: string, c: char)
    ensures Occurrences(a + b, c) == Occurrences(a, c) + Occurrences(b, c)
    decreases |a|
  {
    if a == [] {
      assert a + b == b;
    } else {
      assert (a + b)[1..] == a[1..] + b;
      OccurrencesAppend(a[1..], b, c);
    }
  }

  lemma OccurrencesSplit(a: string, b: string)
    ensures forall c :: Occurrences(a + b, c) == Occurrences(a, c) + Occurrences(b, c)
  {
    forall c ensures Occurrences(a + b, c) == Occurrences(a, c) + Occurrences(b, c) {
      OccurrencesAppend(a, b, c);
    }
  }

  function Quote(s: string): string {
    "\"" + Escape(s) + "\""
  }

  function QuoteAll(texts: seq<string>): (r: seq<string>)
    ensures |r| == |texts|
    ensures forall i :: 0 <= i < |texts| ==> r[i] == Quote(texts[i])
  {
    if texts == [] then [] else [Quote(texts[0])] + QuoteAll(texts[1..])
  }

  /** `Object.values(flattened).map(v => String(v))`. */
  function ValueTexts(flat: seq<Field>, numberText: real -> string): (r: seq<string>)
    ensures |r| == |flat|
    ensures forall i :: 0 <= i < |flat| ==> r[i] == Text(flat[i].value, numberText)
  {
    if flat == [] then [] else [Text(flat[0].value, numberText)] + ValueTexts(flat[1..], numberText)
  }

  function HeaderLine(flat: seq<Field>): string {
    Join(Keys(flat), ",")
  }

  function ValueLine(flat: seq<Field>, numberText: real -> string): string {
    Join(QuoteAll(ValueTexts(flat, numberText)), ",")
  }

  datatype CsvFile = CsvFile(name: string, content: string)

  /** `exportToCSV(data)` for an object with properties `fields`. */
  function ExportToCsv(fields: seq<Field>, stringify: Json -> string, numberText: real -> string): (file: CsvFile)
    ensures file.name == OptText(Lookup(fields, "companyName"), numberText) + "_Analysis.csv"
    ensures var flat := Flatten(fields, "", stringify);
            PlainKeys(flat) ==> ReadCsv(file.content) == Some((Keys(flat), ValueTexts(flat, numberText)))
  {
    var flat := Flatten(fields, "", stringify);
    var content := HeaderLine(flat) + "\n" + ValueLine(flat, numberText);
    var name := OptText(Lookup(fields, "companyName"), numberText) + "_Analysis.csv";
    if PlainKeys(flat) then
      CsvTextRoundTrip(flat, numberText);
      CsvFile(name, content)
    else CsvFile(name, content)
  }

  /** At least one column, and no header that would break the header line
      apart (a comma or a newline in a key). */
  predicate PlainKeys(flat: seq<Field>) {
    |flat| >= 1 && forall i :: 0 <= i < |flat| ==> ',' !in flat[i].key && '\n' !in flat[i].key
  }

  // ---- reading the file back ----

  /** The body of a quoted field, after its opening quote: `""` stands for
      `"`, and a lone `"` closes the field. */
  function ScanQuoted(s: string): (r: Option<(string, string)>)
    ensures r.Some? ==> |r.value.1| < |s|
  {
    if s == [] then None
    else if s[0] == '"' then
      if |s| >= 2 && s[1] == '"' then
        match ScanQuoted(s[2..])
        case None => None
        case Some((v, rest)) => Some(("\"" + v, rest))
      else Some(([], s[1..]))
    else
      match ScanQuoted(s[1..])
      case None => None
      case Some((v, rest)) => Some(([s[0]] + v, rest))
  }

  /** A line of quoted fields separated by commas. */
  function ParseRow(s: string): Option<seq<string>>
    decreases |s|
  {
    if s == [] || s[0] != '"' then None
    else
      match ScanQuoted(s[1..])
      case None => None
      case Some((v, rest)) =>
        if rest == [] then Some([v])
        else if rest[0] != ',' then None
        else
          match ParseRow(rest[1..])
          case None => None
          case Some(vs) => Some([v] + vs)
  }

  lemma {:induction false} ScanEscaped(v: string, rest: string)
    requires rest == [] || rest[0] != '"'
    ensures ScanQuoted(Escape(v) + "\"" + rest) == Some((v, rest))
    decreases |v|
  {
    var s := Escape(v) + "\"" + rest;
    if v == [] {
      assert s == "\"" + rest;
      assert s[1..] == rest;
    } else {
      var tail := Escape(v[1..]) + "\"" + rest;
      ScanEscaped(v[1..], rest);
      var head := if v[0] == '"' then "\"\"" else [v[0]];
      assert Escape(v) == head + Escape(v[1..]);
      AppendAssoc(head, Escape(v[1..]), "\"");
      AppendAssoc(head, Escape(v[1..]) + "\"", rest);
      assert s == head + tail;
      if v[0] == '"' {
        assert s == "\"\"" + tail;
        assert s[2..] == tail;
        assert "\"" + v[1..] == v;
      } else {
        assert s == [v[0]] + tail;
        assert s[1..] == tail;
        assert [v[0]] + v[1..] == v;
      }
    }
  }

  /** A quoted field followed by more text, regrouped behind its opening quote. */
  lemma QuotedFront(v: string, rest: string)
    ensures Quote(v) + rest == "\"" + (Escape(v) + "\"" + rest)
  {
    Regroup("\"", Escape(v), "\"", rest);
    AppendAssoc(Escape(v), "\"", rest);
  }

  /** Quoting and joining a row is undone by `ParseRow`. */
  lemma {:induction false} ParseQuotedRow(texts: seq<string>)
    requires |texts| >= 1
    ensures ParseRow(Join(QuoteAll(texts), ",")) == Some(texts)
    decreases |texts|
  {
    var q := QuoteAll(texts);
    var first := texts[0];
    if |texts| == 1 {
      var s := Join(q, ",");
      QuotedFront(first, []);
      assert s == "\"" + (Escape(first) + "\"" + []);
      ScanEscaped(first, []);
      assert s[1..] == Escape(first) + "\"" + [];
      assert ScanQuoted(s[1..]) == Some((first, []));
      assert texts == [first];
    } else {
      var line := Join(q[1..], ",");
      var rest := "," + line;
      var s := Join(q, ",");
      assert q[1..] == QuoteAll(texts[1..]);
      assert s == Quote(first) + "," + line;
      AppendAssoc(Quote(first), ",", line);
      QuotedFront(first, rest);
      assert s == "\"" + (Escape(first) + "\"" + rest);
      ScanEscaped(first, rest);
      assert s[1..] == Escape(first) + "\"" + rest;
      assert rest[1..] == line;
      ParseQuotedRow(texts[1..]);
      assert [first] + texts[1..] == texts;
    }
  }

  /** Reads a file back: the header line up to the first newline, split at
      commas, and the quoted values after it. */
  function ReadCsv(content: string): Option<(seq<string>, seq<string>)> {
    match IndexFrom(content, "\n", 0)
    case None => None
    case Some(i) =>
      match ParseRow(content[i + 1..])
      case None => None
      case Some(values) => Some((Split(content[..i], ','), values))
  }

  /** The exported text reads back as the flattened keys and the string forms
      of the flattened values, position by position, provided there is at
      least one column and no key holds a comma or a newline (keys are
      written unquoted). */
  lemma CsvTextRoundTrip(flat: seq<Field>, numberText: real -> string)
    requires PlainKeys(flat)
    ensures ReadCsv(HeaderLine(flat) + "\n" + ValueLine(flat, numberText)) == Some((Keys(flat), ValueTexts(flat, numberText)))
  {
    var header := HeaderLine(flat);
    var values := ValueLine(flat, numberText);
    var content := header + "\n" + values;
    var ks := Keys(flat);
    assert forall i :: 0 <= i < |ks| ==> ',' !in ks[i] && '\n' !in ks[i];
    NoNewlineInJoin(ks);
    assert content[|header|..|header| + 1] == "\n";
    forall k | 0 <= k < |header| ensures !MatchAt(content, "\n", k) {
      assert content[k] == header[k];
      assert content[k..k + 1] == [header[k]];
    }
    FirstMatch(content, "\n", 0, |header|);
    assert content[..|header|] == header;
    assert content[|header| + 1..] == values;
    SplitJoin(ks, ',');
    ParseQuotedRow(ValueTexts(flat, numberText));
  }

  lemma {:induction false} NoNewlineInJoin(parts: seq<string>)
    requires forall i :: 0 <= i < |parts| ==> '\n' !in parts[i]
    ensures '\n' !in Join(parts, ",")
    decreases |parts|
  {
    if |parts| > 1 {
      NoNewlineInJoin(parts[1..]);
    }
  }
}
