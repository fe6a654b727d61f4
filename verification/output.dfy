/**
 * The response renderer of pkg/output/output.go: a Writer that holds a
 * format tag and appends to its sink the JSON envelope, the YAML-like
 * dump, the CSV records or the table lines of a payload, and the error
 * envelope.
 *
 * The sink is a sequence of chunks taken before the library encoders: a
 * text line, a line of tab-separated cells before tabwriter aligns them, a
 * CSV record before quoting, a top-level JSON object before encoding.
 */
module Output {
  import opened Wrappers
  import opened Payload
  import Client

  const FormatJSON: string := "json"
  const FormatYAML: string := "yaml"
  const FormatCSV: string := "csv"
  const FormatTable: string := "table"

  const CsvNeedsRows: string := "CSV format requires array/slice data"
  const NoResults: string := "(no results)"

  // ------------------------------------------------------------- JSON

  /** A JSON document as the encoder receives it; data payloads stay as values. */
  datatype Json =
    | JString(s: string)
    | JInt(n: int)
    | JObject(members: seq<Member>)
    | JData(data: Value)

  /** An object member. Members are listed in the order encoding/json writes map keys: sorted. */
  datatype Member = Member(key: string, value: Json)

  /** The value under key, if the object has one. */
  function Get(ms: seq<Member>, key: string): Option<Json> {
    if ms == [] then None
    else if ms[0].key == key then Some(ms[0].value)
    else Get(ms[1..], key)
  }

  lemma GetCons(m: Member, rest: seq<Member>, key: string)
    ensures Get([m] + rest, key) == if m.key == key then Some(m.value) else Get(rest, key)
  {
    assert ([m] + rest)[1..] == rest;
  }

  lemma GetSingle(m: Member, key: string)
    ensures Get([m], key) == if m.key == key then Some(m.value) else None
  {
    GetCons(m, [], key);
    assert [m] + [] == [m];
  }

  /** Get finds a key exactly when some member carries it, and then returns that member's value. */
  lemma {:induction false} GetFinds(ms: seq<Member>, key: string)
    ensures Get(ms, key).None? <==> forall i :: 0 <= i < |ms| ==> ms[i].key != key
    ensures Get(ms, key).Some? ==> exists i :: 0 <= i < |ms| && ms[i] == Member(key, Get(ms, key).value)
  {
    if ms != [] && ms[0].key != key {
      GetFinds(ms[1..], key);
      if Get(ms, key).Some? {
        var i :| 0 <= i < |ms[1..]| && ms[1..][i] == Member(key, Get(ms, key).value);
        assert ms[i + 1] == ms[1..][i];
      }
      forall i | 0 <= i < |ms[1..]|
        ensures ms[1..][i] == ms[i + 1]
      {
      }
    }
  }

  lemma {:induction false} GetAppend(a: seq<Member>, b: seq<Member>, key: string)
    ensures Get(a + b, key) == if Get(a, key).Some? then Get(a, key) else Get(b, key)
  {
    if a != [] {
      assert (a + b)[1..] == a[1..] + b;
      GetAppend(a[1..], b, key);
    } else {
      assert a + b == b;
    }
  }

  predicate DistinctKeys(ms: seq<Member>) {
    forall i, j :: 0 <= i < j < |ms| ==> ms[i].key != ms[j].key
  }

  /** The meta object of a success envelope. */
  function MetaObject(m: Client.ResponseMeta): (r: seq<Member>)
    ensures Get(r, "response_time_ms") == Some(JInt(m.responseTimeMs))
    ensures Get(r, "units_consumed") == if m.unitsConsumed > 0 then Some(JInt(m.unitsConsumed)) else None
    ensures Get(r, "rate_limit_remaining") == if m.rateLimitRemaining > 0 then Some(JInt(m.rateLimitRemaining)) else None
    ensures |r| == 1 + (if m.unitsConsumed > 0 then 1 else 0) + (if m.rateLimitRemaining > 0 then 1 else 0)
    ensures DistinctKeys(r)
  {
    var time := Member("response_time_ms", JInt(m.responseTimeMs));
    var rate := if m.rateLimitRemaining > 0 then [Member("rate_limit_remaining", JInt(m.rateLimitRemaining))] else [];
    var units := if m.unitsConsumed > 0 then [Member("units_consumed", JInt(m.unitsConsumed))] else [];
    var r := rate + [time] + units;
    assert r == rate + ([time] + units);
    assert Get(r, "response_time_ms") == Some(time.value) by {
      GetAppend(rate, [time] + units, "response_time_ms");
    }
    assert Get(r, "units_consumed") == Get(units, "units_consumed") by {
      GetAppend(rate, [time] + units, "units_consumed");
      GetAppend([time], units, "units_consumed");
    }
    assert Get(r, "rate_limit_remaining") == Get(rate, "rate_limit_remaining") by {
      GetAppend(rate, [time] + units, "rate_limit_remaining");
      GetCons(time, units, "rate_limit_remaining");
      if rate != [] {
        GetSingle(rate[0], "rate_limit_remaining");
      }
      if units != [] {
        GetSingle(units[0], "rate_limit_remaining");
      }
    }
    r
  }

  /** The envelope writeJSON encodes. */
  function SuccessEnvelope(data: Value, meta: Option<Client.ResponseMeta>): (r: seq<Member>)
    ensures Get(r, "status") == Some(JString("success"))
    ensures Get(r, "data") == Some(JData(data))
    ensures Get(r, "meta").Some? <==> meta.Some?
    ensures meta.Some? ==> Get(r, "meta") == Some(JObject(MetaObject(meta.value)))
    ensures |r| == (if meta.Some? then 3 else 2)
    ensures DistinctKeys(r)
  {
    var d, s := Member("data", JData(data)), Member("status", JString("success"));
    var middle := if meta.None? then [] else [Member("meta", JObject(MetaObject(meta.value)))];
    var r := [d] + (middle + [s]);
    assert Get(r, "data") == Some(d.value) by {
      GetCons(d, middle + [s], "data");
    }
    assert Get(r, "status") == Some(s.value) by {
      GetCons(d, middle + [s], "status");
      GetAppend(middle, [s], "status");
      GetSingle(s, "status");
      if meta.Some? {
        GetSingle(middle[0], "status");
      }
    }
    assert Get(r, "meta") == Get(middle, "meta") by {
      GetCons(d, middle + [s], "meta");
      GetAppend(middle, [s], "meta");
      GetSingle(s, "meta");
      if meta.Some? {
        GetSingle(middle[0], "meta");
      }
    }
    r
  }

  /** The members formatError sets for an *APIError. */
  function APIErrorObject(a: Client.APIError): (r: seq<Member>)
    ensures Get(r, "message") == Some(JString(a.message))
    ensures Get(r, "code") == Some(JString(a.code))
    ensures Get(r, "suggestion") == if a.suggestion != "" then Some(JString(a.suggestion)) else None
    ensures Get(r, "docs_url") == if a.docsURL != "" then Some(JString(a.docsURL)) else None
    ensures |r| == 2 + (if a.suggestion != "" then 1 else 0) + (if a.docsURL != "" then 1 else 0)
  {
    var code := [Member("code", JString(a.code))];
    var docs := if a.docsURL != "" then [Member("docs_url", JString(a.docsURL))] else [];
    var message := [Member("message", JString(a.message))];
    var suggestion := if a.suggestion != "" then [Member("suggestion", JString(a.suggestion))] else [];
    var tail := message + suggestion;
    var r := code + (docs + tail);
    assert Get(r, "code") == Some(JString(a.code)) by {
      GetAppend(code, docs + tail, "code");
    }
    assert Get(r, "docs_url") == Get(docs, "docs_url") by {
      GetAppend(code, docs + tail, "docs_url");
      GetAppend(docs, tail, "docs_url");
      GetAppend(message, suggestion, "docs_url");
    }
    assert Get(r, "message") == Some(JString(a.message)) by {
      GetAppend(code, docs + tail, "message");
      GetAppend(docs, tail, "message");
      GetAppend(message, suggestion, "message");
    }
    assert Get(r, "suggestion") == Get(suggestion, "suggestion") by {
      GetAppend(code, docs + tail, "suggestion");
      GetAppend(docs, tail, "suggestion");
      GetAppend(message, suggestion, "suggestion");
    }
    r
  }

  /**
   * formatError: the error object of the error envelope. Only an error that
   * is itself an *APIError, not one wrapping it, has its fields spread out.
   */
  function FormatError(e: Client.Error): (r: seq<Member>)
    ensures Get(r, "message") == Some(JString(if e.Api? then e.api.message else Client.ErrorText(e)))
    ensures Get(r, "code").Some? <==> e.Api?
    ensures e.Api? ==> Get(r, "code") == Some(JString(e.api.code))
    ensures Get(r, "suggestion") == if e.Api? && e.api.suggestion != "" then Some(JString(e.api.suggestion)) else None
    ensures Get(r, "docs_url") == if e.Api? && e.api.docsURL != "" then Some(JString(e.api.docsURL)) else None
    ensures !e.Api? ==> |r| == 1
  {
    match e
    case Api(a) => APIErrorObject(a)
    case _ => [Member("message", JString(Client.ErrorText(e)))]
  }

  /** The envelope WriteError encodes. */
  function ErrorEnvelope(e: Client.Error): (r: seq<Member>)
    ensures Get(r, "status") == Some(JString("error"))
    ensures Get(r, "error") == Some(JObject(FormatError(e)))
    ensures |r| == 2 && DistinctKeys(r)
  {
    [Member("error", JObject(FormatError(e))), Member("status", JString("error"))]
  }

  /**
   * An error that Do returns is wrapped, so its error object carries the
   * whole wrapped text as its message and never a code, a suggestion or a
   * documentation link.
   */
  lemma DoFailureFormatsWithoutCode(c: Client.Client, lib: Client.Library, req: Client.Request, net: Client.Network)
    requires Client.DoSpec(c, lib, req, net).outcome.Err?
    ensures var e := Client.DoSpec(c, lib, req, net).outcome.err;
            && Get(FormatError(e), "message") == Some(JString(Client.ErrorText(e)))
            && Get(FormatError(e), "code").None?
            && Get(FormatError(e), "suggestion").None?
            && Get(FormatError(e), "docs_url").None?
  {
    Client.DoErrorIsNeverBareAPIError(c, lib, req, net);
  }

  /**
   * The meta object written for a response Do delivered never carries
   * rate_limit_remaining: Do leaves that count at zero.
   */
  lemma DoMetaOmitsRateLimit(c: Client.Client, lib: Client.Library, req: Client.Request, net: Client.Network)
    requires Client.DoSpec(c, lib, req, net).outcome.Ok?
    ensures var meta := MetaObject(Client.DoSpec(c, lib, req, net).outcome.resp.meta);
            && Get(meta, "rate_limit_remaining").None?
            && Get(meta, "response_time_ms").Some?
  {
    Client.DoSuccessIsAnswered(c, lib, req, net);
  }

  // ------------------------------------------------------------- sink

  /** What the Writer has handed to its sink. */
  datatype Chunk =
    | Line(text: string)
    | TabRow(cells: seq<string>)
    | CsvRecord(cells: seq<string>)
    | JsonDoc(members: seq<Member>)

  /** How a write ended: normally, with a returned error, or with a reflect panic. */
  datatype Status = Done | Failed(message: string) | Panicked

  /** What one call writes, and how it ends. */
  datatype Rendered = Rendered(chunks: seq<Chunk>, status: Status)

  // ------------------------------------------------------------- YAML

  /** strings.Repeat("  ", n). */
  function Indent(n: nat): (s: string)
    ensures |s| == 2 * n && forall i :: 0 <= i < |s| ==> s[i] == ' '
  {
    if n == 0 then "" else Indent(n - 1) + "  "
  }

  /** The lines writeYAMLValue emits for v at depth n. */
  function YamlLines(v: Value, n: nat): seq<Chunk> {
    match v
    case Nil => [Line(Indent(n) + "nil")]
    case Scalar(t) => [Line(Indent(n) + t)]
    case Map(es) => YamlEntries(es, n)
    case Seq(xs) => YamlItems(xs, n)
    case Record(fs) => YamlFields(fs, n)
  }

  function YamlEntries(es: seq<Entry>, n: nat): seq<Chunk> {
    if es == [] then []
    else
      var e := es[|es| - 1];
      YamlEntries(es[..|es| - 1], n) + [Line(Indent(n) + e.key + ":")] + YamlLines(e.value, n + 1)
  }

  function YamlItems(xs: seq<Value>, n: nat): seq<Chunk> {
    if xs == [] then []
    else YamlItems(xs[..|xs| - 1], n) + [Line(Indent(n) + "-")] + YamlLines(xs[|xs| - 1], n + 1)
  }

  /** Exported fields only, under their Go names: json tags play no part in YAML. */
  function YamlFields(fs: seq<Field>, n: nat): seq<Chunk> {
    if fs == [] then []
    else
      var f := fs[|fs| - 1];
      YamlFields(fs[..|fs| - 1], n)
      + (if f.exported then [Line(Indent(n) + f.name + ":")] + YamlLines(f.value, n + 1) else [])
  }

  /** A text line that starts with at least n levels of indentation. */
  predicate IndentedLine(c: Chunk, n: nat) {
    c.Line? && 2 * n <= |c.text| && forall j :: 0 <= j < 2 * n ==> c.text[j] == ' '
  }

  predicate Indented(cs: seq<Chunk>, n: nat) {
    forall i :: 0 <= i < |cs| ==> IndentedLine(cs[i], n)
  }

  lemma IndentedAppend(a: seq<Chunk>, b: seq<Chunk>, n: nat)
    requires Indented(a, n) && Indented(b, n)
    ensures Indented(a + b, n)
  {
    forall i | 0 <= i < |a + b|
      ensures IndentedLine((a + b)[i], n)
    {
      if i < |a| {
        assert (a + b)[i] == a[i];
      } else {
        assert (a + b)[i] == b[i - |a|];
      }
    }
  }

  lemma IndentedDeeper(cs: seq<Chunk>, n: nat)
    requires Indented(cs, n + 1)
    ensures Indented(cs, n)
  {
  }

  /** Every line of the dump of v at depth n is a text line indented by at least 2n spaces. */
  lemma {:induction false} YamlIndented(v: Value, n: nat)
    ensures Indented(YamlLines(v, n), n)
    decreases v, 1
  {
    match v
    case Nil =>
    case Scalar(_) =>
    case Map(es) => YamlEntriesIndented(es, n);
    case Seq(xs) => YamlItemsIndented(xs, n);
    case Record(fs) => YamlFieldsIndented(fs, n);
  }

  lemma {:induction false} YamlEntriesIndented(es: seq<Entry>, n: nat)
    ensures Indented(YamlEntries(es, n), n)
    decreases es, 0
  {
    if es != [] {
      var e := es[|es| - 1];
      assert e in es;
      YamlEntriesIndented(es[..|es| - 1], n);
      YamlIndented(e.value, n + 1);
      IndentedDeeper(YamlLines(e.value, n + 1), n);
      IndentedAppend(YamlEntries(es[..|es| - 1], n), [Line(Indent(n) + e.key + ":")], n);
      IndentedAppend(YamlEntries(es[..|es| - 1], n) + [Line(Indent(n) + e.key + ":")], YamlLines(e.value, n + 1), n);
    }
  }

  lemma {:induction false} YamlItemsIndented(xs: seq<Value>, n: nat)
    ensures Indented(YamlItems(xs, n), n)
    decreases xs, 0
  {
    if xs != [] {
      var x := xs[|xs| - 1];
      assert x in xs;
      YamlItemsIndented(xs[..|xs| - 1], n);
      YamlIndented(x, n + 1);
      IndentedDeeper(YamlLines(x, n + 1), n);
      IndentedAppend(YamlItems(xs[..|xs| - 1], n), [Line(Indent(n) + "-")], n);
      IndentedAppend(YamlItems(xs[..|xs| - 1], n) + [Line(Indent(n) + "-")], YamlLines(x, n + 1), n);
    }
  }

  lemma {:induction false} YamlFieldsIndented(fs: seq<Field>, n: nat)
    ensures Indented(YamlFields(fs, n), n)
    decreases fs, 0
  {
    if fs != [] {
      var f := fs[|fs| - 1];
      assert f in fs;
      YamlFieldsIndented(fs[..|fs| - 1], n);
      if f.exported {
        YamlIndented(f.value, n + 1);
        IndentedDeeper(YamlLines(f.value, n + 1), n);
        IndentedAppend([Line(Indent(n) + f.name + ":")], YamlLines(f.value, n + 1), n);
        IndentedAppend(YamlFields(fs[..|fs| - 1], n), [Line(Indent(n) + f.name + ":")] + YamlLines(f.value, n + 1), n);
      }
    }
  }

  /** The whole of writeYAML: two header lines, then the payload at depth 1. */
  function YamlOutput(data: Value): (r: seq<Chunk>)
    ensures |r| >= 2 && r[0] == Line("status: success") && r[1] == Line("data:")
    ensures Indented(r[2..], 1)
  {
    YamlIndented(data, 1);
    var r := [Line("status: success"), Line("data:")] + YamlLines(data, 1);
    assert r[2..] == YamlLines(data, 1);
    r
  }

  // -------------------------------------------------------- CSV, table

  /** The first row, from index k on, that makes extractRow panic. */
  function PanicFrom(rows: seq<Value>, headers: seq<string>, k: nat): (r: Option<nat>)
    requires k <= |rows|
    ensures r.Some? ==> k <= r.value < |rows|
    decreases |rows| - k
  {
    if k == |rows| then None
    else if RowPanics(rows[k], headers) then Some(k)
    else PanicFrom(rows, headers, k + 1)
  }

  /** The first row that makes extractRow panic. */
  function PanicIndex(rows: seq<Value>, headers: seq<string>): Option<nat> {
    PanicFrom(rows, headers, 0)
  }

  lemma {:induction false} PanicFromFinds(rows: seq<Value>, headers: seq<string>, k: nat)
    requires k <= |rows|
    ensures var r := PanicFrom(rows, headers, k);
            r.Some? ==> RowPanics(rows[r.value], headers) && forall j :: k <= j < r.value ==> !RowPanics(rows[j], headers)
    ensures PanicFrom(rows, headers, k).None? ==> forall j :: k <= j < |rows| ==> !RowPanics(rows[j], headers)
    decreases |rows| - k
  {
    if k < |rows| && !RowPanics(rows[k], headers) {
      PanicFromFinds(rows, headers, k + 1);
    }
  }

  /** PanicIndex names the first panicking row, and there is none when it names nothing. */
  lemma PanicIndexFinds(rows: seq<Value>, headers: seq<string>)
    ensures var r := PanicIndex(rows, headers);
            r.Some? ==> r.value < |rows| && RowPanics(rows[r.value], headers)
                        && forall j :: 0 <= j < r.value ==> !RowPanics(rows[j], headers)
    ensures PanicIndex(rows, headers).None? <==> forall j :: 0 <= j < |rows| ==> !RowPanics(rows[j], headers)
  {
    PanicFromFinds(rows, headers, 0);
  }

  /** The rows written before a panic, or all of them. */
  function Reached(rows: seq<Value>, headers: seq<string>): (k: nat)
    ensures k <= |rows|
  {
    match PanicIndex(rows, headers)
    case Some(k) => k
    case None => |rows|
  }

  function EndStatus(rows: seq<Value>, headers: seq<string>): Status {
    if PanicIndex(rows, headers).Some? then Panicked else Done
  }

  function CsvRecords(rows: seq<Value>, headers: seq<string>): (r: seq<Chunk>)
    ensures |r| == |rows|
  {
    if rows == [] then [] else CsvRecords(rows[..|rows| - 1], headers) + [CsvRecord(Row(rows[|rows| - 1], headers))]
  }

  function TableRows(rows: seq<Value>, headers: seq<string>): (r: seq<Chunk>)
    ensures |r| == |rows|
  {
    if rows == [] then [] else TableRows(rows[..|rows| - 1], headers) + [TabRow(Row(rows[|rows| - 1], headers))]
  }

  /** Record i is row i's cells under the headers. */
  lemma {:induction false} CsvRecordsAt(rows: seq<Value>, headers: seq<string>)
    ensures forall i :: 0 <= i < |rows| ==> CsvRecords(rows, headers)[i] == CsvRecord(Row(rows[i], headers))
  {
    if rows != [] {
      CsvRecordsAt(rows[..|rows| - 1], headers);
    }
  }

  /** Line i is row i's cells under the headers. */
  lemma {:induction false} TableRowsAt(rows: seq<Value>, headers: seq<string>)
    ensures forall i :: 0 <= i < |rows| ==> TableRows(rows, headers)[i] == TabRow(Row(rows[i], headers))
  {
    if rows != [] {
      TableRowsAt(rows[..|rows| - 1], headers);
    }
  }

  /** The records writeCSV writes after the headers: each row up to the first that panics. */
  function CsvBody(rows: seq<Value>, headers: seq<string>): seq<Chunk> {
    CsvRecords(rows[..Reached(rows, headers)], headers)
  }

  /** The lines writeTable writes after the header and the dashes. */
  function TableBody(rows: seq<Value>, headers: seq<string>): seq<Chunk> {
    TableRows(rows[..Reached(rows, headers)], headers)
  }

  /** A row that does not panic is written, and the search passes on to the next row. */
  lemma PassesRow(rows: seq<Value>, headers: seq<string>, i: nat)
    requires i < |rows| && !RowPanics(rows[i], headers)
    ensures PanicFrom(rows, headers, i) == PanicFrom(rows, headers, i + 1)
    ensures CsvRecords(rows[..i + 1], headers) == CsvRecords(rows[..i], headers) + [CsvRecord(Row(rows[i], headers))]
    ensures TableRows(rows[..i + 1], headers) == TableRows(rows[..i], headers) + [TabRow(Row(rows[i], headers))]
  {
    assert rows[..i + 1][..i] == rows[..i];
  }

  /**
   * When the search has reached row i and row i panics, or has passed every
   * row (i == |rows|), the rows before i are exactly the ones written.
   */
  lemma StopsAt(rows: seq<Value>, headers: seq<string>, i: nat)
    requires i <= |rows| && PanicIndex(rows, headers) == PanicFrom(rows, headers, i)
    requires i < |rows| ==> RowPanics(rows[i], headers)
    ensures CsvRowsOutput(rows, headers) == Rendered([CsvRecord(headers)] + CsvRecords(rows[..i], headers), if i < |rows| then Panicked else Done)
    ensures TableRowsOutput(rows, headers)
         == Rendered([TabRow(headers), TabRow([Dashes(10 * |headers|)])] + TableRows(rows[..i], headers), if i < |rows| then Panicked else Done)
  {
    assert Reached(rows, headers) == i;
  }

  /** writeCSV. */
  function CsvOutput(data: Value): Rendered {
    match RowSet(data)
    case None => Rendered([], Failed(CsvNeedsRows))
    case Some(rows) =>
      if rows == [] then Rendered([], Done)
      else CsvRowsOutput(rows, Headers(rows[0]))
  }

  /** writeCSV once it has a non-empty row set: the header record, then a record per row until a panic. */
  function CsvRowsOutput(rows: seq<Value>, headers: seq<string>): Rendered {
    Rendered([CsvRecord(headers)] + CsvBody(rows, headers), EndStatus(rows, headers))
  }

  function Dashes(n: nat): (s: string)
    ensures |s| == n
  {
    if n == 0 then "" else Dashes(n - 1) + "-"
  }

  lemma {:induction false} DashesAreDashes(n: nat)
    ensures forall i :: 0 <= i < n ==> Dashes(n)[i] == '-'
  {
    if n > 0 {
      DashesAreDashes(n - 1);
    }
  }

  function EntryLines(es: seq<Entry>): (r: seq<Chunk>)
    ensures |r| == |es|
    ensures forall i :: 0 <= i < |es| ==> r[i] == TabRow([es[i].key + ":", Show(es[i].value)])
  {
    if es == [] then []
    else EntryLines(es[..|es| - 1]) + [TabRow([es[|es| - 1].key + ":", Show(es[|es| - 1].value)])]
  }

  function FieldLine(f: Field): Chunk {
    TabRow([f.name + ":", Show(f.value)])
  }

  function FieldLines(fs: seq<Field>): seq<Chunk> {
    if fs == [] then []
    else FieldLines(fs[..|fs| - 1]) + (if fs[|fs| - 1].exported then [FieldLine(fs[|fs| - 1])] else [])
  }

  /** One line per exported field, under its Go name, in declaration order. */
  lemma {:induction false} FieldLinesAreExported(fs: seq<Field>)
    ensures FieldLines(fs) == seq(|Exported(fs)|, i requires 0 <= i < |Exported(fs)| => FieldLine(Exported(fs)[i]))
  {
    if fs != [] {
      FieldLinesAreExported(fs[..|fs| - 1]);
    }
  }

  /** writeTableObject. */
  function ObjectLines(data: Value): seq<Chunk> {
    match data
    case Map(es) => EntryLines(es)
    case Record(fs) => FieldLines(fs)
    case _ => [TabRow(["Value:", Show(data)])]
  }

  /** writeTable. */
  function TableOutput(data: Value): Rendered {
    match RowSet(data)
    case None => Rendered(ObjectLines(data), Done)
    case Some(rows) =>
      if rows == [] then Rendered([TabRow([NoResults])], Done)
      else TableRowsOutput(rows, Headers(rows[0]))
  }

  /** writeTable once it has a non-empty row set: headers, a rule of dashes, then a line per row until a panic. */
  function TableRowsOutput(rows: seq<Value>, headers: seq<string>): Rendered {
    Rendered([TabRow(headers), TabRow([Dashes(10 * |headers|)])] + TableBody(rows, headers), EndStatus(rows, headers))
  }

  // ------------------------------------------ properties of CSV and table

  /**
   * writeCSV refuses exactly the payloads that hold no row set, and then
   * writes nothing; a struct is refused, never unwrapped.
   */
  lemma CsvRequiresRows(data: Value)
    ensures CsvOutput(data).status == Failed(CsvNeedsRows) <==> RowSet(data).None?
    ensures RowSet(data).None? ==> CsvOutput(data).chunks == []
    ensures data.Record? ==> CsvOutput(data) == Rendered([], Failed(CsvNeedsRows))
  {
    RowSetShapes(data);
    match RowSet(data)
    case None =>
    case Some(rows) =>
      if rows != [] {
        assert CsvOutput(data).status == EndStatus(rows, Headers(rows[0]));
      }
  }

  /** An empty row set: CSV writes nothing at all, the table a single "(no results)" line. */
  /** Data without a row set (a struct, a scalar, a map with no slice) is written as a single object. */
  lemma TableWithoutRows(data: Value)
    ensures RowSet(data).None? ==> TableOutput(data) == Rendered(ObjectLines(data), Done)
    ensures data.Record? ==> TableOutput(data) == Rendered(FieldLines(data.fields), Done)
  {
  }

  lemma EmptyRowSet(data: Value)
    requires RowSet(data) == Some([])
    ensures CsvOutput(data) == Rendered([], Done)
    ensures TableOutput(data) == Rendered([TabRow([NoResults])], Done)
  {
  }

  /** Where writing stops: at the first row extractRow panics on, or after the last row. */
  lemma ReachedIsFirstPanic(rows: seq<Value>, headers: seq<string>)
    ensures forall j :: 0 <= j < Reached(rows, headers) ==> !RowPanics(rows[j], headers)
    ensures EndStatus(rows, headers) == Panicked <==> exists j :: 0 <= j < |rows| && RowPanics(rows[j], headers)
    ensures EndStatus(rows, headers) == Panicked ==>
              Reached(rows, headers) < |rows| && RowPanics(rows[Reached(rows, headers)], headers)
    ensures EndStatus(rows, headers) == Done ==> Reached(rows, headers) == |rows|
  {
    PanicIndexFinds(rows, headers);
  }

  /**
   * writeCSV on a non-empty row set: the header record, then one record
   * per row reached, each with one cell per header.
   */
  lemma CsvShape(rows: seq<Value>, headers: seq<string>)
    ensures var r := CsvRowsOutput(rows, headers);
            && |r.chunks| == 1 + Reached(rows, headers)
            && r.chunks[0] == CsvRecord(headers)
            && forall i :: 1 <= i < |r.chunks| ==>
                 r.chunks[i] == CsvRecord(Row(rows[i - 1], headers)) && |r.chunks[i].cells| == |headers|
  {
    var k := Reached(rows, headers);
    var body := CsvRecords(rows[..k], headers);
    CsvRecordsAt(rows[..k], headers);
    var r := CsvRowsOutput(rows, headers);
    assert r.chunks == [CsvRecord(headers)] + body;
    forall i | 1 <= i < |r.chunks|
      ensures r.chunks[i] == CsvRecord(Row(rows[i - 1], headers))
    {
      assert r.chunks[i] == body[i - 1];
      assert rows[..k][i - 1] == rows[i - 1];
    }
  }

  /**
   * writeTable on a non-empty row set: the header line, a rule of ten
   * dashes per header, then one line per row reached.
   */
  lemma TableShape(rows: seq<Value>, headers: seq<string>)
    ensures var r := TableRowsOutput(rows, headers);
            && |r.chunks| == 2 + Reached(rows, headers)
            && r.chunks[0] == TabRow(headers)
            && r.chunks[1] == TabRow([Dashes(10 * |headers|)])
            && (forall i :: 0 <= i < |Dashes(10 * |headers|)| ==> Dashes(10 * |headers|)[i] == '-')
            && forall i :: 2 <= i < |r.chunks| ==> r.chunks[i] == TabRow(Row(rows[i - 2], headers))
  {
    var k := Reached(rows, headers);
    var body := TableRows(rows[..k], headers);
    TableRowsAt(rows[..k], headers);
    DashesAreDashes(10 * |headers|);
    var r := TableRowsOutput(rows, headers);
    assert r.chunks == [TabRow(headers), TabRow([Dashes(10 * |headers|)])] + body;
    forall i | 2 <= i < |r.chunks|
      ensures r.chunks[i] == TabRow(Row(rows[i - 2], headers))
    {
      assert r.chunks[i] == body[i - 2];
      assert rows[..k][i - 2] == rows[i - 2];
    }
  }

  /** Every row is a struct of the first row's type, whose fields are all exported and carry distinct labels. */
  predicate UniformStructs(rows: seq<Value>) {
    && rows != []
    && (forall i :: 0 <= i < |rows| ==> rows[i].Record?)
    && (forall i :: 0 <= i < |rows| ==> SameType(rows[0].fields, rows[i].fields))
    && (forall j :: 0 <= j < |rows[0].fields| ==> rows[0].fields[j].exported)
    && DistinctLabels(rows[0].fields)
  }

  lemma UniformRowsComplete(rows: seq<Value>)
    requires UniformStructs(rows)
    ensures Headers(rows[0]) == Labels(rows[0].fields)
    ensures Reached(rows, Labels(rows[0].fields)) == |rows| && EndStatus(rows, Labels(rows[0].fields)) == Done
    ensures forall i :: 0 <= i < |rows| ==> Row(rows[i], Labels(rows[0].fields)) == FieldTexts(rows[i].fields)
  {
    var first := rows[0].fields;
    UniformHeaders(first);
    forall i | 0 <= i < |rows|
      ensures !RowPanics(rows[i], Labels(first))
      ensures Row(rows[i], Labels(first)) == FieldTexts(rows[i].fields)
    {
      UniformRowsNeverPanic(first, rows[i].fields);
      UniformRowsMatch(first, rows[i].fields);
    }
    PanicIndexFinds(rows, Labels(first));
  }

  /**
   * Structs of one type with exported, distinctly labelled fields are
   * written in full: a header record of their labels, then per row its
   * field values in declaration order, and no panic.
   */
  lemma UniformStructsCsv(rows: seq<Value>)
    requires UniformStructs(rows)
    ensures var r := CsvOutput(Seq(rows));
            && r.status == Done
            && r.chunks == [CsvRecord(Labels(rows[0].fields))]
                           + seq(|rows|, i requires 0 <= i < |rows| => CsvRecord(FieldTexts(rows[i].fields)))
  {
    var headers := Labels(rows[0].fields);
    var texts := seq(|rows|, i requires 0 <= i < |rows| => CsvRecord(FieldTexts(rows[i].fields)));
    assert CsvOutput(Seq(rows)) == CsvRowsOutput(rows, headers) by {
      assert RowSet(Seq(rows)) == Some(rows);
      UniformHeaders(rows[0].fields);
    }
    assert CsvBody(rows, headers) == CsvRecords(rows, headers) && EndStatus(rows, headers) == Done by {
      UniformRowsComplete(rows);
      assert rows[..|rows|] == rows;
    }
    assert CsvRecords(rows, headers) == texts by {
      UniformRecords(rows);
    }
  }

  lemma UniformRecords(rows: seq<Value>)
    requires UniformStructs(rows)
    ensures CsvRecords(rows, Labels(rows[0].fields))
            == seq(|rows|, i requires 0 <= i < |rows| => CsvRecord(FieldTexts(rows[i].fields)))
  {
    var records := CsvRecords(rows, Labels(rows[0].fields));
    var texts := seq(|rows|, i requires 0 <= i < |rows| => CsvRecord(FieldTexts(rows[i].fields)));
    forall i | 0 <= i < |rows|
      ensures records[i] == texts[i]
    {
      UniformRecordAt(rows, i);
    }
    SameChunks(records, texts);
  }

  lemma UniformRecordAt(rows: seq<Value>, i: nat)
    requires UniformStructs(rows) && i < |rows|
    ensures CsvRecords(rows, Labels(rows[0].fields))[i] == CsvRecord(FieldTexts(rows[i].fields))
  {
    var first := rows[0].fields;
    assert CsvRecords(rows, Labels(first))[i] == CsvRecord(Row(rows[i], Labels(first))) by {
      CsvRecordsAt(rows, Labels(first));
    }
    assert rows[i] == Record(rows[i].fields);
    UniformRowsMatch(first, rows[i].fields);
  }

  lemma SameChunks(a: seq<Chunk>, b: seq<Chunk>)
    requires |a| == |b|
    requires forall i :: 0 <= i < |a| ==> a[i] == b[i]
    ensures a == b
  {
  }



  /** WriteSuccess: what each format writes. */
  function SuccessOutput(format: string, data: Value, meta: Option<Client.ResponseMeta>): (r: Rendered)
    ensures format !in {FormatJSON, FormatYAML, FormatCSV, FormatTable} ==>
              r == Rendered([], Failed("unsupported output format: " + format))
    ensures format in {FormatJSON, FormatYAML} ==> r.status == Done && r.chunks != []
    ensures r.status == Panicked ==> format in {FormatCSV, FormatTable}
    ensures format == FormatJSON ==> r == Rendered([JsonDoc(SuccessEnvelope(data, meta))], Done)
    ensures format == FormatYAML ==> r == Rendered(YamlOutput(data), Done)
    ensures format == FormatCSV ==> r == CsvOutput(data)
    ensures format == FormatTable ==> r == TableOutput(data)
  {
    if format == FormatJSON then Rendered([JsonDoc(SuccessEnvelope(data, meta))], Done)
    else if format == FormatYAML then Rendered(YamlOutput(data), Done)
    else if format == FormatCSV then CsvOutput(data)
    else if format == FormatTable then TableOutput(data)
    else Rendered([], Failed("unsupported output format: " + format))
  }

  // ---------------------------------------------------- the Writer

  /** NewWriter on standard output, and the write operations. */
  class Writer {
    const format: string
    var out: seq<Chunk>

    constructor (format: string)
      ensures this.format == format && out == []
    {
      this.format := format;
      out := [];
    }

    method WriteSuccess(data: Value, meta: Option<Client.ResponseMeta>) returns (status: Status)
      modifies this
      ensures out == old(out) + SuccessOutput(format, data, meta).chunks
      ensures status == SuccessOutput(format, data, meta).status
    {
      if format == FormatJSON {
        WriteJson(data, meta);
        status := Done;
      } else if format == FormatYAML {
        WriteYaml(data, meta);
        status := Done;
      } else if format == FormatCSV {
        status := WriteCsv(data);
      } else if format == FormatTable {
        status := WriteTable(data);
      } else {
        status := Failed("unsupported output format: " + format);
      }
    }

    /** Always a JSON document, whatever the format. */
    method WriteError(e: Client.Error)
      modifies this
      ensures out == old(out) + [JsonDoc(ErrorEnvelope(e))]
    {
      out := out + [JsonDoc(ErrorEnvelope(e))];
    }

    method WriteJson(data: Value, meta: Option<Client.ResponseMeta>)
      modifies this
      ensures out == old(out) + [JsonDoc(SuccessEnvelope(data, meta))]
    {
      out := out + [JsonDoc(SuccessEnvelope(data, meta))];
    }

    /** meta is not written. */
    method WriteYaml(data: Value, meta: Option<Client.ResponseMeta>)
      modifies this
      ensures out == old(out) + YamlOutput(data)
    {
      out := out + [Line("status: success"), Line("data:")];
      WriteYamlValue(data, 1);
    }

    method WriteYamlValue(v: Value, indent: nat)
      modifies this
      ensures out == old(out) + YamlLines(v, indent)
      decreases v, 1
    {
      var prefix := Indent(indent);
      match v
      case Nil =>
        out := out + [Line(prefix + "nil")];
      case Scalar(t) =>
        out := out + [Line(prefix + t)];
      case Map(es) =>
        WriteYamlEntries(es, indent);
      case Seq(xs) =>
        WriteYamlItems(xs, indent);
      case Record(fs) =>
        WriteYamlFields(fs, indent);
    }

    /** The map branch of writeYAMLValue: each key on its own line, its value one level deeper. */
    method WriteYamlEntries(es: seq<Entry>, indent: nat)
      modifies this
      ensures out == old(out) + YamlEntries(es, indent)
      decreases es, 0
    {
      var prefix := Indent(indent);
      for i := 0 to |es|
        invariant out == old(out) + YamlEntries(es[..i], indent)
      {
        assert es[..i + 1][..i] == es[..i];
        assert es[i] in es;
        out := out + [Line(prefix + es[i].key + ":")];
        WriteYamlValue(es[i].value, indent + 1);
      }
      assert es[..|es|] == es;
    }

    /** The slice branch of writeYAMLValue: a dash per element, the element one level deeper. */
    method WriteYamlItems(xs: seq<Value>, indent: nat)
      modifies this
      ensures out == old(out) + YamlItems(xs, indent)
      decreases xs, 0
    {
      var prefix := Indent(indent);
      for i := 0 to |xs|
        invariant out == old(out) + YamlItems(xs[..i], indent)
      {
        assert xs[..i + 1][..i] == xs[..i];
        assert xs[i] in xs;
        out := out + [Line(prefix + "-")];
        WriteYamlValue(xs[i], indent + 1);
      }
      assert xs[..|xs|] == xs;
    }

    /** The struct branch of writeYAMLValue: exported fields only, under their Go names. */
    method WriteYamlFields(fs: seq<Field>, indent: nat)
      modifies this
      ensures out == old(out) + YamlFields(fs, indent)
      decreases fs, 0
    {
      var prefix := Indent(indent);
      for i := 0 to |fs|
        invariant out == old(out) + YamlFields(fs[..i], indent)
      {
        assert fs[..i + 1][..i] == fs[..i];
        assert fs[i] in fs;
        if fs[i].exported {
          out := out + [Line(prefix + fs[i].name + ":")];
          WriteYamlValue(fs[i].value, indent + 1);
        }
      }
      assert fs[..|fs|] == fs;
    }

    method WriteCsv(data: Value) returns (status: Status)
      modifies this
      ensures out == old(out) + CsvOutput(data).chunks
      ensures status == CsvOutput(data).status
    {
      var selected := SelectRows(data);
      if selected.None? {
        return Failed(CsvNeedsRows);
      }
      var rows := selected.value;
      if |rows| == 0 {
        return Done;
      }
      var headers := ExtractHeaders(rows[0]);
      status := WriteCsvRows(rows, headers);
    }

    method WriteCsvRows(rows: seq<Value>, headers: seq<string>) returns (status: Status)
      modifies this
      ensures out == old(out) + CsvRowsOutput(rows, headers).chunks
      ensures status == CsvRowsOutput(rows, headers).status
    {
      out := out + [CsvRecord(headers)];
      ghost var start := out;
      for i := 0 to |rows|
        invariant out == start + CsvRecords(rows[..i], headers)
        invariant PanicIndex(rows, headers) == PanicFrom(rows, headers, i)
      {
        var row, ok := ExtractRow(rows[i], headers);
        if !ok {
          StopsAt(rows, headers, i);
          return Panicked;
        }
        PassesRow(rows, headers, i);
        out := out + [CsvRecord(row)];
      }
      StopsAt(rows, headers, |rows|);
      status := Done;
    }

    method WriteTable(data: Value) returns (status: Status)
      modifies this
      ensures out == old(out) + TableOutput(data).chunks
      ensures status == TableOutput(data).status
    {
      var selected := SelectRows(data);
      if selected.None? {
        assert TableOutput(data) == Rendered(ObjectLines(data), Done);
        WriteTableObject(data);
        return Done;
      }
      var rows := selected.value;
      if |rows| == 0 {
        out := out + [TabRow([NoResults])];
        return Done;
      }
      var headers := ExtractHeaders(rows[0]);
      status := WriteTableRows(rows, headers);
    }

    /** The line loop of writeTable: it stops where extractRow panics. */
    method WriteTableRows(rows: seq<Value>, headers: seq<string>) returns (status: Status)
      modifies this
      ensures out == old(out) + TableRowsOutput(rows, headers).chunks
      ensures status == TableRowsOutput(rows, headers).status
    {
      out := out + [TabRow(headers), TabRow([Dashes(10 * |headers|)])];
      ghost var start := out;
      for i := 0 to |rows|
        invariant out == start + TableRows(rows[..i], headers)
        invariant PanicIndex(rows, headers) == PanicFrom(rows, headers, i)
      {
        var row, ok := ExtractRow(rows[i], headers);
        if !ok {
          StopsAt(rows, headers, i);
          return Panicked;
        }
        PassesRow(rows, headers, i);
        out := out + [TabRow(row)];
      }
      StopsAt(rows, headers, |rows|);
      status := Done;
    }

    method WriteTableObject(data: Value)
      modifies this
      ensures out == old(out) + ObjectLines(data)
    {
      match data
      case Map(es) =>
        for i := 0 to |es|
          invariant out == old(out) + EntryLines(es[..i])
        {
          assert es[..i + 1][..i] == es[..i];
          out := out + [TabRow([es[i].key + ":", Show(es[i].value)])];
        }
        assert es[..|es|] == es;
      case Record(fs) =>
        for i := 0 to |fs|
          invariant out == old(out) + FieldLines(fs[..i])
        {
          assert fs[..i + 1][..i] == fs[..i];
          if fs[i].exported {
            out := out + [TabRow([fs[i].name + ":", Show(fs[i].value)])];
          }
        }
        assert fs[..|fs|] == fs;
      case _ =>
        out := out + [TabRow(["Value:", Show(data)])];
    }
  }
}
