/**
 * Response payloads as the renderer of pkg/output/output.go sees them
 * through reflection, over a closed set of shapes, and the shape-directed
 * logic the CSV and table renderers share: picking the row-set, naming the
 * columns from the first row (extractHeaders) and reading one row's cells
 * (extractRow).
 */
module Payload {
  import opened Wrappers

  /**
   * A Go value: a nil interface, a scalar by its %v text, a map with its
   * entries in iteration order, a slice or array, or a struct with its
   * fields in declaration order.
   */
  datatype Value =
    | Nil
    | Scalar(text: string)
    | Map(entries: seq<Entry>)
    | Seq(items: seq<Value>)
    | Record(fields: seq<Field>)

  /** A map entry; the key by its %v text. */
  datatype Entry = Entry(key: string, value: Value)

  /** A struct field: Go name, whether it is exported, its json tag ("" when absent), its value. */
  datatype Field = Field(name: string, exported: bool, tag: string, value: Value)

  // ------------------------------------------------------------ text

  /** strings.Join. */
  function Join(parts: seq<string>, sep: string): string
  {
    if parts == [] then ""
    else if |parts| == 1 then parts[0]
    else Join(parts[..|parts| - 1], sep) + sep + parts[|parts| - 1]
  }

  /** fmt's %v text of a value; fields of every visibility are shown. */
  function Show(v: Value): string {
    match v
    case Nil => "<nil>"
    case Scalar(t) => t
    case Map(es) => "map[" + Join(ShowEntries(es), " ") + "]"
    case Seq(xs) => "[" + Join(ShowItems(xs), " ") + "]"
    case Record(fs) => "{" + Join(ShowFields(fs), " ") + "}"
  }

  function ShowEntries(es: seq<Entry>): seq<string> {
    if es == [] then [] else ShowEntries(es[..|es| - 1]) + [es[|es| - 1].key + ":" + Show(es[|es| - 1].value)]
  }

  function ShowItems(xs: seq<Value>): seq<string> {
    if xs == [] then [] else ShowItems(xs[..|xs| - 1]) + [Show(xs[|xs| - 1])]
  }

  function ShowFields(fs: seq<Field>): seq<string> {
    if fs == [] then [] else ShowFields(fs[..|fs| - 1]) + [Show(fs[|fs| - 1].value)]
  }

  // ---------------------------------------------------------- row-set

  /** The first entry whose value is a slice. */
  function FirstSequence(es: seq<Entry>): (r: Option<nat>)
    ensures r.Some? ==> r.value < |es| && es[r.value].value.Seq? && forall j :: 0 <= j < r.value ==> !es[j].value.Seq?
    ensures r.None? ==> forall j :: 0 <= j < |es| ==> !es[j].value.Seq?
  {
    if es == [] then None
    else if es[0].value.Seq? then Some(0)
    else match FirstSequence(es[1..])
      case None => None
      case Some(j) => Some(j + 1)
  }

  /**
   * The rows CSV and table output iterate over: a slice itself, or the first
   * slice-valued entry of a map; None for every other shape (a struct is
   * never searched).
   */
  function RowSet(v: Value): Option<seq<Value>> {
    match v
    case Seq(xs) => Some(xs)
    case Map(es) =>
      (match FirstSequence(es)
       case Some(j) => Some(es[j].value.items)
       case None => None)
    case _ => None
  }

  /**
   * A slice is its own row-set; a map's row-set is its first slice-valued
   * entry and exists exactly when some entry is a slice; a struct, a scalar
   * or nil has none.
   */
  lemma RowSetShapes(v: Value)
    ensures v.Seq? ==> RowSet(v) == Some(v.items)
    ensures v.Map? ==> (RowSet(v).Some? <==> exists j :: 0 <= j < |v.entries| && v.entries[j].value.Seq?)
    ensures v.Map? && RowSet(v).Some? ==>
              exists j :: 0 <= j < |v.entries| && v.entries[j].value == Seq(RowSet(v).value)
                          && forall i :: 0 <= i < j ==> !v.entries[i].value.Seq?
    ensures !v.Seq? && !v.Map? ==> RowSet(v).None?
  {
    if v.Map? {
      match FirstSequence(v.entries)
      case Some(j) =>
      case None =>
    }
  }

  /** The map-unwrapping loop at the head of writeCSV and writeTable. */
  method SelectRows(data: Value) returns (rows: Option<seq<Value>>)
    ensures rows == RowSet(data)
  {
    var val := data;
    if data.Map? {
      var i := 0;
      while i < |data.entries|
        invariant 0 <= i <= |data.entries|
        invariant forall j :: 0 <= j < i ==> !data.entries[j].value.Seq?
        invariant val == data
      {
        if data.entries[i].value.Seq? {
          val := data.entries[i].value;
          break;
        }
        i := i + 1;
      }
    }
    if !val.Seq? {
      return None;
    }
    rows := Some(val.items);
  }

  // ---------------------------------------------------------- headers

  /** strings.Split(s, ",")[0]: the text before the first comma. */
  function BeforeComma(s: string): string {
    if s == [] || s[0] == ',' then [] else [s[0]] + BeforeComma(s[1..])
  }

  /** The name is the longest comma-free prefix of the tag. */
  lemma {:induction false} BeforeCommaIsLongestPrefix(s: string)
    ensures BeforeComma(s) <= s && ',' !in BeforeComma(s)
    ensures |BeforeComma(s)| < |s| ==> s[|BeforeComma(s)|] == ','
  {
    if s != [] && s[0] != ',' {
      BeforeCommaIsLongestPrefix(s[1..]);
    }
  }

  /** A field's column name: its json tag up to the first comma, unless the tag is "" or "-". */
  function Label(f: Field): string {
    if f.tag != "" && f.tag != "-" then BeforeComma(f.tag) else f.name
  }

  /** A tag without a comma is its own name. */
  lemma {:induction false} BeforeCommaNoComma(a: string)
    requires ',' !in a
    ensures BeforeComma(a) == a
  {
    if a != [] {
      BeforeCommaNoComma(a[1..]);
    }
  }

  /** A tag whose first comma is at index i names the column by the text before it. */
  lemma {:induction false} BeforeCommaAt(s: string, i: nat)
    requires i < |s| && s[i] == ',' && ',' !in s[..i]
    ensures BeforeComma(s) == s[..i]
  {
    if i > 0 {
      assert s[0] in s[..i];
      assert s[1..][..i - 1] == s[1..i];
      BeforeCommaAt(s[1..], i - 1);
    }
  }

  /** A tag with options names the column by the text before the comma. */
  lemma OptionsTagLabel(v: Value)
    ensures Label(Field("Backlinks", true, "backlinks,omitempty", v)) == "backlinks"
  {
    var tag := "backlinks,omitempty";
    assert tag[..9] == "backlinks";
    BeforeCommaAt(tag, 9);
  }

  /** A tag without options is the column name, whatever the Go name. */
  lemma PlainTagLabel(v: Value)
    ensures Label(Field("URLFrom", true, "url_from", v)) == "url_from"
  {
    BeforeCommaNoComma("url_from");
  }

  /** A tag of only options names the column "", while "-" and no tag fall back to the Go name. */
  lemma UntaggedLabels(v: Value)
    ensures Label(Field("Refdomains", true, ",omitempty", v)) == ""
    ensures Label(Field("Live", true, "-", v)) == "Live"
    ensures Label(Field("Domain", true, "", v)) == "Domain"
  {
  }

  /** The exported fields, in declaration order. */
  function Exported(fs: seq<Field>): (r: seq<Field>)
    ensures |r| <= |fs|
    ensures forall i :: 0 <= i < |r| ==> r[i].exported
  {
    if fs == [] then []
    else Exported(fs[..|fs| - 1]) + (if fs[|fs| - 1].exported then [fs[|fs| - 1]] else [])
  }

  /** Exactly the exported fields are kept: a field is in the selection iff it is an exported field of fs. */
  lemma {:induction false} ExportedMembers(fs: seq<Field>)
    ensures forall f :: f in Exported(fs) <==> f in fs && f.exported
  {
    if fs != [] {
      var init := fs[..|fs| - 1];
      ExportedMembers(init);
      assert fs == init + [fs[|fs| - 1]];
    }
  }

  lemma {:induction false} ExportedAppend(a: seq<Field>, b: seq<Field>)
    ensures Exported(a + b) == Exported(a) + Exported(b)
    decreases |b|
  {
    if b != [] {
      var b' := b[..|b| - 1];
      assert (a + b)[..|a + b| - 1] == a + b';
      ExportedAppend(a, b');
    } else {
      assert a + b == a;
    }
  }

  lemma {:induction false} ExportedOfAllExported(fs: seq<Field>)
    requires forall i :: 0 <= i < |fs| ==> fs[i].exported
    ensures Exported(fs) == fs
  {
    if fs != [] {
      var init := fs[..|fs| - 1];
      ExportedOfAllExported(init);
      assert Exported(fs) == Exported(init) + [fs[|fs| - 1]];
      assert init + [fs[|fs| - 1]] == fs;
    }
  }

  function Keys(es: seq<Entry>): (r: seq<string>)
    ensures |r| == |es| && forall i :: 0 <= i < |es| ==> r[i] == es[i].key
  {
    if es == [] then [] else Keys(es[..|es| - 1]) + [es[|es| - 1].key]
  }

  function Labels(fs: seq<Field>): (r: seq<string>)
    ensures |r| == |fs| && forall i :: 0 <= i < |fs| ==> r[i] == Label(fs[i])
  {
    if fs == [] then [] else Labels(fs[..|fs| - 1]) + [Label(fs[|fs| - 1])]
  }

  /** Column names from one row: map keys, or the labels of exported struct fields. */
  function Headers(v: Value): seq<string> {
    match v
    case Map(es) => Keys(es)
    case Record(fs) => Labels(Exported(fs))
    case _ => []
  }

  /**
   * One header per map entry, its key; one per exported struct field, its
   * label; none for any other shape.
   */
  lemma HeadersNaming(v: Value)
    ensures v.Map? ==> |Headers(v)| == |v.entries| && forall i :: 0 <= i < |v.entries| ==> Headers(v)[i] == v.entries[i].key
    ensures v.Record? ==>
              |Headers(v)| == |Exported(v.fields)|
              && forall i :: 0 <= i < |Headers(v)| ==> Headers(v)[i] == Label(Exported(v.fields)[i])
    ensures !v.Map? && !v.Record? ==> Headers(v) == []
  {
  }

  /** extractHeaders. */
  method ExtractHeaders(v: Value) returns (headers: seq<string>)
    ensures headers == Headers(v)
  {
    headers := [];
    if v.Map? {
      headers := MapHeaders(v.entries);
      return;
    }
    if v.Record? {
      headers := StructHeaders(v.fields);
    }
  }

  /** The map loop of extractHeaders: every key, in order. */
  method MapHeaders(es: seq<Entry>) returns (headers: seq<string>)
    ensures headers == Keys(es)
  {
    headers := [];
    for i := 0 to |es|
      invariant headers == Keys(es[..i])
    {
      assert es[..i + 1][..i] == es[..i];
      headers := headers + [es[i].key];
    }
    assert es[..|es|] == es;
  }

  /** The struct loop of extractHeaders: the label of every exported field, in declaration order. */
  method StructHeaders(fs: seq<Field>) returns (headers: seq<string>)
    ensures headers == Labels(Exported(fs))
  {
    headers := [];
    for i := 0 to |fs|
      invariant headers == Labels(Exported(fs[..i]))
    {
      assert fs[..i + 1][..i] == fs[..i];
      if fs[i].exported {
        headers := headers + [Label(fs[i])];
      }
    }
    assert fs[..|fs|] == fs;
  }


  // ------------------------------------------------------------- rows

  /** The first field, exported or not, whose label is h. */
  function FieldMatch(fs: seq<Field>, h: string): (r: Option<nat>)
    ensures r.Some? ==> r.value < |fs| && Label(fs[r.value]) == h && forall j :: 0 <= j < r.value ==> Label(fs[j]) != h
    ensures r.None? ==> forall j :: 0 <= j < |fs| ==> Label(fs[j]) != h
  {
    LabelSearchFinds(fs, h);
    LabelSearch(fs, h)
  }

  /** The search loop of extractRow over the fields, as a recursion. */
  function LabelSearch(fs: seq<Field>, h: string): Option<nat> {
    if fs == [] then None
    else if Label(fs[0]) == h then Some(0)
    else Shift(LabelSearch(fs[1..], h), 0)
  }

  lemma {:induction false} LabelSearchFinds(fs: seq<Field>, h: string)
    ensures var r := LabelSearch(fs, h);
            r.Some? ==> r.value < |fs| && Label(fs[r.value]) == h && forall j :: 0 <= j < r.value ==> Label(fs[j]) != h
    ensures LabelSearch(fs, h).None? ==> forall j :: 0 <= j < |fs| ==> Label(fs[j]) != h
  {
    if fs != [] && Label(fs[0]) != h {
      LabelSearchFinds(fs[1..], h);
    }
  }

  /** The first entry whose key is h. */
  function KeyMatch(es: seq<Entry>, h: string): (r: Option<nat>)
    ensures r.Some? ==> r.value < |es| && es[r.value].key == h && forall j :: 0 <= j < r.value ==> es[j].key != h
    ensures r.None? ==> forall j :: 0 <= j < |es| ==> es[j].key != h
  {
    if es == [] then None
    else if es[0].key == h then Some(0)
    else match KeyMatch(es[1..], h)
      case None => None
      case Some(j) => Some(j + 1)
  }

  /** A match index in a + b, moved past a field inserted after position |a|. */
  function Shift(r: Option<nat>, n: nat): Option<nat> {
    match r
    case None => None
    case Some(j) => Some(if j < n then j else j + 1)
  }

  /** Inserting a field that does not match h moves the match at or past the insertion point by one. */
  lemma {:induction false} LabelSearchInsert(a: seq<Field>, f: Field, b: seq<Field>, h: string)
    requires Label(f) != h
    ensures LabelSearch(a + [f] + b, h) == Shift(LabelSearch(a + b, h), |a|)
    decreases |a|
  {
    if a == [] {
      assert a + [f] + b == [f] + b && a + b == b;
      assert ([f] + b)[0] == f && ([f] + b)[1..] == b;
    } else {
      var rest := a[1..];
      assert (a + [f] + b)[0] == a[0] && (a + [f] + b)[1..] == rest + [f] + b;
      assert (a + b)[0] == a[0] && (a + b)[1..] == rest + b;
      if Label(a[0]) != h {
        LabelSearchInsert(rest, f, b, h);
      }
    }
  }

  /** The same, for FieldMatch. */
  lemma FieldMatchInsert(a: seq<Field>, f: Field, b: seq<Field>, h: string)
    requires Label(f) != h
    ensures FieldMatch(a + [f] + b, h) == Shift(FieldMatch(a + b, h), |a|)
  {
    LabelSearchInsert(a, f, b, h);
  }

  /** The inserted field changes neither the cell under h nor whether h reaches an unexported field. */
  lemma CellInsert(a: seq<Field>, f: Field, b: seq<Field>, h: string)
    requires Label(f) != h
    ensures Cell(Record(a + [f] + b), h) == Cell(Record(a + b), h)
    ensures ReachesUnexported(a + [f] + b, h) == ReachesUnexported(a + b, h)
  {
    FieldMatchInsert(a, f, b, h);
    match FieldMatch(a + b, h)
    case None =>
    case Some(j) =>
      if j < |a| {
        assert (a + [f] + b)[j] == (a + b)[j];
      } else {
        assert (a + [f] + b)[j + 1] == (a + b)[j];
      }
  }

  /** The cell under header h: the %v text of the first matching entry or field, or "". */
  function Cell(v: Value, h: string): string {
    match v
    case Map(es) =>
      (match KeyMatch(es, h)
       case Some(j) => Show(es[j].value)
       case None => "")
    case Record(fs) =>
      (match FieldMatch(fs, h)
       case Some(j) => Show(fs[j].value)
       case None => "")
    case _ => ""
  }

  function Row(v: Value, headers: seq<string>): (r: seq<string>)
    ensures |r| == |headers|
  {
    seq(|headers|, i requires 0 <= i < |headers| => Cell(v, headers[i]))
  }

  /** reflect refuses Interface() on an unexported field: the first match for h is one. */
  predicate ReachesUnexported(fs: seq<Field>, h: string) {
    match FieldMatch(fs, h)
    case Some(j) => !fs[j].exported
    case None => false
  }

  /** The first header whose match is an unexported field: where extractRow's header loop panics. */
  function PanicHeader(fs: seq<Field>, headers: seq<string>): Option<nat> {
    if headers == [] then None
    else if ReachesUnexported(fs, headers[0]) then Some(0)
    else Shift(PanicHeader(fs, headers[1..]), 0)
  }

  /** extractRow panics on this row. */
  predicate RowPanics(v: Value, headers: seq<string>) {
    v.Record? && PanicHeader(v.fields, headers).Some?
  }

  /** The header loop panics exactly when some header reaches an unexported field, and at the first one. */
  lemma {:induction false} PanicHeaderFinds(fs: seq<Field>, headers: seq<string>)
    ensures var r := PanicHeader(fs, headers);
            r.Some? ==> r.value < |headers| && ReachesUnexported(fs, headers[r.value])
                        && forall k :: 0 <= k < r.value ==> !ReachesUnexported(fs, headers[k])
    ensures PanicHeader(fs, headers).None? ==> forall k :: 0 <= k < |headers| ==> !ReachesUnexported(fs, headers[k])
  {
    if headers != [] && !ReachesUnexported(fs, headers[0]) {
      PanicHeaderFinds(fs, headers[1..]);
    }
  }

  /** The inner loop of extractRow over a map: the value of the first key equal to h. */
  method FindKeyCell(es: seq<Entry>, h: string) returns (cell: string)
    ensures cell == Cell(Map(es), h)
  {
    cell := "";
    for j := 0 to |es|
      invariant forall m :: 0 <= m < j ==> es[m].key != h
    {
      if es[j].key == h {
        cell := Show(es[j].value);
        assert KeyMatch(es, h) == Some(j);
        return;
      }
    }
  }

  /** The inner loop of extractRow over a struct: ok is false where Go panics. */
  method FindFieldCell(fs: seq<Field>, h: string) returns (cell: string, ok: bool)
    ensures ok == !ReachesUnexported(fs, h)
    ensures ok ==> cell == Cell(Record(fs), h)
  {
    cell, ok := "", true;
    for j := 0 to |fs|
      invariant forall m :: 0 <= m < j ==> Label(fs[m]) != h
    {
      if Label(fs[j]) == h {
        FirstLabelMatch(fs, h, j);
        if !fs[j].exported {
          return "", false;
        }
        cell := Show(fs[j].value);
        return;
      }
    }
    FirstLabelMatch(fs, h, |fs|);
  }

  /** The loop's stopping point: the first field labelled h, or the end when there is none. */
  lemma FirstLabelMatch(fs: seq<Field>, h: string, j: nat)
    requires j <= |fs| && forall m :: 0 <= m < j ==> Label(fs[m]) != h
    requires j < |fs| ==> Label(fs[j]) == h
    ensures FieldMatch(fs, h) == if j < |fs| then Some(j) else None
    ensures j < |fs| ==> Cell(Record(fs), h) == Show(fs[j].value) && ReachesUnexported(fs, h) == !fs[j].exported
    ensures j == |fs| ==> Cell(Record(fs), h) == "" && !ReachesUnexported(fs, h)
  {
    assert FieldMatch(fs, h) == if j < |fs| then Some(j) else None;
  }

  /** extractRow: one cell per header; ok is false where Go panics. */
  method ExtractRow(v: Value, headers: seq<string>) returns (row: seq<string>, ok: bool)
    ensures ok == !RowPanics(v, headers)
    ensures ok ==> row == Row(v, headers)
  {
    if v.Map? {
      row := MapRow(v.entries, headers);
      return row, true;
    }
    if v.Record? {
      row, ok := StructRow(v.fields, headers);
      return;
    }
    row := seq(|headers|, _ => "");
    return row, true;
  }

  /** extractRow on a map: the cells are filled in place, header by header. */
  method MapRow(es: seq<Entry>, headers: seq<string>) returns (row: seq<string>)
    ensures row == Row(Map(es), headers)
  {
    var cells := new string[|headers|](_ => "");
    for i := 0 to |headers|
      invariant forall k :: 0 <= k < i ==> cells[k] == Cell(Map(es), headers[k])
    {
      cells[i] := FindKeyCell(es, headers[i]);
    }
    row := cells[..];
    assert forall k :: 0 <= k < |headers| ==> row[k] == Row(Map(es), headers)[k];
  }

  /** extractRow on a struct: the cells are filled in place until a header reaches an unexported field. */
  method StructRow(fs: seq<Field>, headers: seq<string>) returns (row: seq<string>, ok: bool)
    ensures ok == !RowPanics(Record(fs), headers)
    ensures ok ==> row == Row(Record(fs), headers)
  {
    var cells := new string[|headers|](_ => "");
    for i := 0 to |headers|
      invariant forall k :: 0 <= k < i ==> cells[k] == Cell(Record(fs), headers[k]) && !ReachesUnexported(fs, headers[k])
    {
      var cell, found := FindFieldCell(fs, headers[i]);
      if !found {
        assert PanicHeader(fs, headers).Some? by {
          PanicHeaderFinds(fs, headers);
        }
        return [], false;
      }
      cells[i] := cell;
    }
    assert PanicHeader(fs, headers).None? by {
      PanicHeaderFinds(fs, headers);
    }
    row := cells[..];
    assert forall k :: 0 <= k < |headers| ==> row[k] == Row(Record(fs), headers)[k];
    ok := true;
  }

  // ------------------------------------------------ properties of rows

  /** A header that no key or field carries gives an empty cell, not an error. */
  lemma MissingHeaderGivesEmptyCell(v: Value, h: string)
    requires v.Map? ==> forall j :: 0 <= j < |v.entries| ==> v.entries[j].key != h
    requires v.Record? ==> forall j :: 0 <= j < |v.fields| ==> Label(v.fields[j]) != h
    ensures Cell(v, h) == ""
    ensures v.Record? ==> !ReachesUnexported(v.fields, h)
  {
    if v.Map? {
      assert KeyMatch(v.entries, h).None?;
    } else if v.Record? {
      assert FieldMatch(v.fields, h).None?;
    }
  }

  /**
   * A field whose label is not a header, wherever it sits among the fields,
   * is dropped: the row, and whether it panics, are as if it were absent.
   */
  lemma ExtraFieldDropped(a: seq<Field>, f: Field, b: seq<Field>, headers: seq<string>)
    requires Label(f) !in headers
    ensures Row(Record(a + [f] + b), headers) == Row(Record(a + b), headers)
    ensures RowPanics(Record(a + [f] + b), headers) == RowPanics(Record(a + b), headers)
  {
    forall i | 0 <= i < |headers|
      ensures Cell(Record(a + [f] + b), headers[i]) == Cell(Record(a + b), headers[i])
      ensures ReachesUnexported(a + [f] + b, headers[i]) == ReachesUnexported(a + b, headers[i])
    {
      CellInsert(a, f, b, headers[i]);
    }
    PanicHeaderFinds(a + [f] + b, headers);
    PanicHeaderFinds(a + b, headers);
  }

  /** Two structs of one Go type: the same field names, visibility and tags, in the same order. */
  predicate SameType(a: seq<Field>, b: seq<Field>) {
    && |a| == |b|
    && forall i :: 0 <= i < |a| ==> a[i].name == b[i].name && a[i].exported == b[i].exported && a[i].tag == b[i].tag
  }

  predicate DistinctLabels(fs: seq<Field>) {
    forall i, j :: 0 <= i < j < |fs| ==> Label(fs[i]) != Label(fs[j])
  }

  /** The %v text of each field, read straight off the struct. */
  function FieldTexts(fs: seq<Field>): (r: seq<string>)
    ensures |r| == |fs|
  {
    seq(|fs|, i requires 0 <= i < |fs| => Show(fs[i].value))
  }

  /** Under distinct labels, a field of the same type is found at its own position. */
  lemma MatchesOwnColumn(first: seq<Field>, row: seq<Field>, i: nat)
    requires SameType(first, row)
    requires DistinctLabels(first)
    requires i < |first|
    ensures FieldMatch(row, Label(first[i])) == Some(i)
  {
    assert forall j :: 0 <= j < |row| ==> Label(row[j]) == Label(first[j]);
  }

  lemma UniformCells(first: seq<Field>, row: seq<Field>)
    requires SameType(first, row)
    requires forall i :: 0 <= i < |first| ==> first[i].exported
    requires DistinctLabels(first)
    ensures forall i :: 0 <= i < |first| ==>
              Cell(Record(row), Label(first[i])) == Show(row[i].value) && !ReachesUnexported(row, Label(first[i]))
  {
    forall i | 0 <= i < |first|
      ensures Cell(Record(row), Label(first[i])) == Show(row[i].value)
      ensures !ReachesUnexported(row, Label(first[i]))
    {
      MatchesOwnColumn(first, row, i);
    }
  }

  /** A struct whose fields are all exported names its columns by all its labels. */
  lemma UniformHeaders(first: seq<Field>)
    requires forall i :: 0 <= i < |first| ==> first[i].exported
    ensures Headers(Record(first)) == Labels(first)
  {
    ExportedOfAllExported(first);
  }
  /**
   * Rows of one struct type whose fields are exported and carry distinct
   * labels never make extractRow panic under the first row's headers.
   */
  lemma UniformRowsNeverPanic(first: seq<Field>, row: seq<Field>)
    requires SameType(first, row)
    requires forall i :: 0 <= i < |first| ==> first[i].exported
    requires DistinctLabels(first)
    ensures !RowPanics(Record(row), Labels(first))
  {
    UniformCells(first, row);
    PanicHeaderFinds(row, Labels(first));
  }
  /** Under the same conditions, every row's cells are its own field values, in declaration order. */
  lemma UniformRowsMatch(first: seq<Field>, row: seq<Field>)
    requires SameType(first, row)
    requires forall i :: 0 <= i < |first| ==> first[i].exported
    requires DistinctLabels(first)
    ensures Row(Record(row), Labels(first)) == FieldTexts(row)
  {
    ColumnCells(first, row);
    SameStrings(Row(Record(row), Labels(first)), FieldTexts(row));
  }

  lemma ColumnCells(first: seq<Field>, row: seq<Field>)
    requires SameType(first, row)
    requires DistinctLabels(first)
    ensures |Row(Record(row), Labels(first))| == |FieldTexts(row)|
    ensures forall i :: 0 <= i < |first| ==> Row(Record(row), Labels(first))[i] == FieldTexts(row)[i]
  {
    forall i | 0 <= i < |first|
      ensures Row(Record(row), Labels(first))[i] == FieldTexts(row)[i]
    {
      ColumnCell(first, row, i);
    }
  }

  lemma SameStrings(a: seq<string>, b: seq<string>)
    requires |a| == |b|
    requires forall i :: 0 <= i < |a| ==> a[i] == b[i]
    ensures a == b
  {
  }

  lemma ColumnCell(first: seq<Field>, row: seq<Field>, i: nat)
    requires SameType(first, row)
    requires DistinctLabels(first)
    requires i < |first|
    ensures Row(Record(row), Labels(first))[i] == Show(row[i].value)
  {
    var h := Labels(first)[i];
    assert h == Label(first[i]);
    assert FieldMatch(row, h) == Some(i) by {
      MatchesOwnColumn(first, row, i);
    }
    CellOfField(row, h, i);
  }

  lemma CellOfField(fs: seq<Field>, h: string, j: nat)
    requires FieldMatch(fs, h) == Some(j)
    ensures j < |fs| && Cell(Record(fs), h) == Show(fs[j].value)
  {
  }
}
